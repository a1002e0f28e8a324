/**
 * The values every revision of the skin-weight engine passes around: influence
 * names, weight pairs, per-vertex records, the exported skinning data, and the
 * conversions between a dense row of weights and its sparse pairs.
 *
 * A weight is held as a non-negative count of fixed-point units, so that a
 * weight's text form can be printed and parsed back exactly (see Text).
 */
module SkinModel {
  import opened Wrappers
  import opened Geometry

  type Name = string
  type Weight = nat

  /** One `(influence_index, weight_value)` pair of a vertex. */
  datatype WeightPair = WeightPair(influence: nat, value: Weight)

  /** One entry of the exported `verts` table. */
  datatype VertexRecord = VertexRecord(position: Vec3, normal: Vec3, weights: seq<WeightPair>)

  /** The serialised skinning data; `verts[i]` is the record stored for vertex i. */
  datatype SkinningData = SkinningData(
    inputGeometry: Name,
    influences: seq<Name>,
    influenceIds: seq<nat>,
    verts: seq<VertexRecord>)

  /** One influence object of a skinCluster, as the host describes it. */
  datatype Influence = Influence(
    fullPath: Name,      // `fullPathName()`
    partialPath: Name,   // `partialPathName()`, the shortest unique path
    logicalIndex: nat)   // `indexForInfluenceObject()`

  /**
   * What the host scene holds for one skinned mesh, as the engine reads it
   * through the host API. Every query the modelled code makes of the scene is
   * answered from here; every edit it makes lands here.
   */
  datatype HostMesh = HostMesh(
    inputGeometry: Name,                // full path of the skinCluster's input geometry
    influences: seq<Influence>,         // `influenceObjects()`, in influence-object order
    weighted: seq<Name>,                // full paths of the influences that carry some weight
    weights: seq<Weight>,               // `getWeights()`: one row of |influences| weights per vertex
    plugEntries: seq<seq<WeightPair>>,  // per vertex, the existing (logical index, weight) plug elements
    blendWeights: seq<Weight>,          // `getBlendWeights()`
    points: seq<Vec3>,                  // world-space vertex positions of the deformed mesh
    normals: seq<Vec3>,                 // world-space vertex normals of the deformed mesh
    inputPoints: seq<Vec3>,             // world-space vertex positions of the input geometry
    blindTypes: set<int>,               // registered blind-data type ids
    blindData: map<int, map<nat, string>>) // per type id, the string stored on each vertex

  function FullPaths(infs: seq<Influence>): (r: seq<Name>)
    ensures |r| == |infs| && forall k :: 0 <= k < |infs| ==> r[k] == infs[k].fullPath
  {
    seq(|infs|, k requires 0 <= k < |infs| => infs[k].fullPath)
  }

  function PartialPaths(infs: seq<Influence>): (r: seq<Name>)
    ensures |r| == |infs| && forall k :: 0 <= k < |infs| ==> r[k] == infs[k].partialPath
  {
    seq(|infs|, k requires 0 <= k < |infs| => infs[k].partialPath)
  }

  function LogicalIndexes(infs: seq<Influence>): (r: seq<nat>)
    ensures |r| == |infs| && forall k :: 0 <= k < |infs| ==> r[k] == infs[k].logicalIndex
  {
    seq(|infs|, k requires 0 <= k < |infs| => infs[k].logicalIndex)
  }

  /** The influences whose full path is not in `names`, in their order. */
  function WithoutNamed(infs: seq<Influence>, names: set<Name>): (r: seq<Influence>)
    ensures forall k :: 0 <= k < |r| ==> r[k] in infs && r[k].fullPath !in names
    ensures forall k :: 0 <= k < |infs| && infs[k].fullPath !in names ==> infs[k] in r
    decreases |infs|
  {
    if infs == [] then []
    else
      var init, last := infs[..|infs| - 1], infs[|infs| - 1];
      assert infs == init + [last];
      WithoutNamed(init, names) + (if last.fullPath in names then [] else [last])
  }

  /** Removing one name at a time comes to removing them all at once. */
  lemma {:induction false} WithoutNamedStep(infs: seq<Influence>, names: set<Name>, x: Name)
    ensures WithoutNamed(WithoutNamed(infs, names), {x}) == WithoutNamed(infs, names + {x})
    decreases |infs|
  {
    if infs != [] {
      var init, last := infs[..|infs| - 1], infs[|infs| - 1];
      WithoutNamedStep(init, names, x);
      var w := WithoutNamed(init, names);
      assert WithoutNamed(infs, names + {x})
          == WithoutNamed(init, names + {x}) + (if last.fullPath in names + {x} then [] else [last]);
      if last.fullPath in names {
        assert WithoutNamed(infs, names) == w;
      } else {
        assert WithoutNamed(infs, names) == w + [last];
        WithoutNamedAppend(w, last, {x});
      }
    }
  }

  /** Removing no names keeps every influence. */
  lemma {:induction false} WithoutNamedNone(infs: seq<Influence>)
    ensures WithoutNamed(infs, {}) == infs
    decreases |infs|
  {
    if infs != [] {
      var init, last := infs[..|infs| - 1], infs[|infs| - 1];
      assert infs == init + [last];
      WithoutNamedNone(init);
      WithoutNamedAppend(init, last, {});
    }
  }

  lemma WithoutNamedAppend(infs: seq<Influence>, last: Influence, names: set<Name>)
    ensures WithoutNamed(infs + [last], names)
         == WithoutNamed(infs, names) + (if last.fullPath in names then [] else [last])
  {
    assert (infs + [last])[..|infs|] == infs;
  }

  /** The strings a write of `strs` onto vertices `ids` leaves in a blind-data store, later writes winning. */
  function WriteStrings(store: map<nat, string>, ids: seq<nat>, strs: seq<string>): (r: map<nat, string>)
    requires |ids| == |strs|
    decreases |ids|
  {
    if ids == [] then store
    else WriteStrings(store, ids[..|ids| - 1], strs[..|strs| - 1])[ids[|ids| - 1] := strs[|strs| - 1]]
  }

  /** The value the last write to vertex v stored, if any write touched it. */
  function LastWrite(ids: seq<nat>, strs: seq<string>, v: nat): Option<string>
    requires |ids| == |strs|
    decreases |ids|
  {
    if ids == [] then None
    else if ids[|ids| - 1] == v then Some(strs[|strs| - 1])
    else LastWrite(ids[..|ids| - 1], strs[..|strs| - 1], v)
  }

  /** A written vertex holds its last written string; every other vertex keeps what it had. */
  lemma {:induction false} WriteStringsAt(store: map<nat, string>, ids: seq<nat>, strs: seq<string>, v: nat)
    requires |ids| == |strs|
    ensures LastWrite(ids, strs, v).Some? ==>
      v in WriteStrings(store, ids, strs) && WriteStrings(store, ids, strs)[v] == LastWrite(ids, strs, v).value
    ensures LastWrite(ids, strs, v).None? ==>
      (v in WriteStrings(store, ids, strs) <==> v in store) &&
      (v in store ==> WriteStrings(store, ids, strs)[v] == store[v])
    decreases |ids|
  {
    if ids != [] {
      WriteStringsAt(store, ids[..|ids| - 1], strs[..|strs| - 1], v);
    }
  }

  /** Baking twice onto the same vertices leaves only the second bake's strings. */
  lemma WriteStringsOverwrite(store: map<nat, string>, ids: seq<nat>, a: seq<string>, b: seq<string>)
    requires |ids| == |a| == |b|
    ensures WriteStrings(WriteStrings(store, ids, a), ids, b) == WriteStrings(store, ids, b)
  {
    var once := WriteStrings(store, ids, a);
    var lhs, rhs := WriteStrings(once, ids, b), WriteStrings(store, ids, b);
    forall v: nat ensures (v in lhs <==> v in rhs) && (v in lhs ==> lhs[v] == rhs[v]) {
      WriteStringsAt(once, ids, b, v);
      WriteStringsAt(store, ids, b, v);
      WriteStringsAt(store, ids, a, v);
      if LastWrite(ids, b, v).None? {
        assert LastWrite(ids, a, v).None? by {
          LastWriteSameIds(ids, a, b, v);
        }
      }
    }
    assert lhs.Keys == rhs.Keys;
  }

  /** Whether a vertex was written depends only on the vertex list. */
  lemma {:induction false} LastWriteSameIds(ids: seq<nat>, a: seq<string>, b: seq<string>, v: nat)
    requires |ids| == |a| == |b|
    ensures LastWrite(ids, a, v).Some? <==> LastWrite(ids, b, v).Some?
    decreases |ids|
  {
    if ids != [] {
      LastWriteSameIds(ids[..|ids| - 1], a[..|a| - 1], b[..|b| - 1], v);
    }
  }

  /** Writing onto vertices 0..m-1 stores string k on vertex k. */
  lemma {:induction false} WriteStringsRange(store: map<nat, string>, strs: seq<string>, v: nat)
    requires v < |strs|
    ensures v in WriteStrings(store, Range(|strs|), strs)
    ensures WriteStrings(store, Range(|strs|), strs)[v] == strs[v]
    decreases |strs|
  {
    var m := |strs|;
    assert Range(m)[..m - 1] == Range(m - 1);
    if v < m - 1 {
      WriteStringsRange(store, strs[..m - 1], v);
    }
  }

  /** `getStringBlindData` over all vertices: the (vertex, string) pairs stored, highest vertex first. */
  function StoredDescending(store: map<nat, string>, nv: nat): (r: seq<string>)
    decreases nv
  {
    if nv == 0 then []
    else (if nv - 1 in store then [store[nv - 1]] else []) + StoredDescending(store, nv - 1)
  }

  function Zeros(n: nat): (r: seq<Weight>)
    ensures |r| == n && forall i :: 0 <= i < n ==> r[i] == 0
  {
    seq(n, i => 0)
  }

  /** `list(range(n))`. */
  function Range(n: nat): (r: seq<nat>)
    ensures |r| == n && forall i :: 0 <= i < n ==> r[i] == i
  {
    seq(n, i requires 0 <= i => i)
  }

  /** `weights[lo:lo + n]`: Python slicing clamps at the end of the list. */
  function Slice(w: seq<Weight>, lo: nat, n: nat): (r: seq<Weight>)
    ensures |r| == if lo >= |w| then 0 else if lo + n <= |w| then n else |w| - lo
    ensures forall j :: 0 <= j < |r| ==> r[j] == w[lo + j]
  {
    if lo >= |w| then [] else if lo + n <= |w| then w[lo..lo + n] else w[lo..]
  }

  /** `zip(influence_indexes, row)`: pairs up to the shorter of the two. */
  function ZipRow(indexes: seq<nat>, row: seq<Weight>): (r: seq<WeightPair>)
    ensures |r| == if |indexes| < |row| then |indexes| else |row|
    ensures forall j :: 0 <= j < |r| ==> r[j] == WeightPair(indexes[j], row[j])
  {
    var m := if |indexes| < |row| then |indexes| else |row|;
    seq(m, j requires 0 <= j < m => WeightPair(indexes[j], row[j]))
  }

  /** The pairs whose weight is not zero, in their original order (the export's sparsity filter). */
  function NonZero(pairs: seq<WeightPair>): (r: seq<WeightPair>)
    ensures |r| <= |pairs|
    ensures forall k :: 0 <= k < |r| ==> r[k].value != 0 && r[k] in pairs
    ensures forall p :: p in pairs && p.value != 0 ==> p in r
    decreases |pairs|
  {
    if pairs == [] then []
    else
      var init, last := pairs[..|pairs| - 1], pairs[|pairs| - 1];
      assert pairs == init + [last];
      NonZero(init) + (if last.value != 0 then [last] else [])
  }

  /** Filtering twice keeps what filtering once kept. */
  lemma {:induction false} NonZeroIdempotent(pairs: seq<WeightPair>)
    ensures NonZero(NonZero(pairs)) == NonZero(pairs)
    decreases |pairs|
  {
    if pairs != [] {
      var init, last := pairs[..|pairs| - 1], pairs[|pairs| - 1];
      NonZeroIdempotent(init);
      var r := NonZero(pairs);
      if last.value != 0 {
        assert r[..|r| - 1] == NonZero(init);
      } else {
        assert r == NonZero(init);
      }
    }
  }

  /** The value of the last pair that names slot j, if any. */
  function LastAt(pairs: seq<WeightPair>, j: nat): Option<Weight>
    decreases |pairs|
  {
    if pairs == [] then None
    else if pairs[|pairs| - 1].influence == j then Some(pairs[|pairs| - 1].value)
    else LastAt(pairs[..|pairs| - 1], j)
  }

  predicate InRange(pairs: seq<WeightPair>, n: nat)
  {
    forall k :: 0 <= k < |pairs| ==> pairs[k].influence < n
  }

  /**
   * The row after writing every pair's value into its slot, first pair first:
   * a slot named by some pair holds the value of the last pair naming it, any
   * other slot keeps its value.
   */
  function Place(row: seq<Weight>, pairs: seq<WeightPair>): (r: seq<Weight>)
    requires InRange(pairs, |row|)
    ensures |r| == |row|
    ensures forall j :: 0 <= j < |row| ==>
      r[j] == match LastAt(pairs, j) { case Some(v) => v case None => row[j] }
    decreases |pairs|
  {
    if pairs == [] then row
    else
      var last := pairs[|pairs| - 1];
      Place(row, pairs[..|pairs| - 1])[last.influence := last.value]
  }

  /** Placing one more in-range pair writes its value over the row placed so far. */
  lemma PlaceAppend(row: seq<Weight>, pairs: seq<WeightPair>, x: WeightPair)
    requires InRange(pairs, |row|) && x.influence < |row|
    ensures InRange(pairs + [x], |row|) && Place(row, pairs + [x]) == Place(row, pairs)[x.influence := x.value]
  {
    assert (pairs + [x])[..|pairs|] == pairs;
  }

  lemma LastAtAppend(pairs: seq<WeightPair>, x: WeightPair, j: nat)
    ensures LastAt(pairs + [x], j) == if x.influence == j then Some(x.value) else LastAt(pairs, j)
  {
    assert (pairs + [x])[..|pairs|] == pairs;
  }

  lemma NonZeroAppend(pairs: seq<WeightPair>, x: WeightPair)
    ensures NonZero(pairs + [x]) == NonZero(pairs) + (if x.value != 0 then [x] else [])
  {
    assert (pairs + [x])[..|pairs|] == pairs;
  }

  /** The sparse pairs of a dense row: `[p for p in zip(range(n), row) if p[-1] != 0]`. */
  function SparseRow(row: seq<Weight>): seq<WeightPair>
  {
    NonZero(ZipRow(Range(|row|), row))
  }

  lemma SparseRowAppend(row: seq<Weight>)
    requires |row| > 0
    ensures SparseRow(row) == SparseRow(row[..|row| - 1])
      + (if row[|row| - 1] != 0 then [WeightPair(|row| - 1, row[|row| - 1])] else [])
  {
    var m := |row|;
    var z := ZipRow(Range(m), row);
    assert z == ZipRow(Range(m - 1), row[..m - 1]) + [WeightPair(m - 1, row[m - 1])];
    NonZeroAppend(ZipRow(Range(m - 1), row[..m - 1]), WeightPair(m - 1, row[m - 1]));
  }

  /** The sparse pairs of a dense row name each non-zero slot once, with its value. */
  lemma {:induction false} LastAtOfSparseRow(row: seq<Weight>, j: nat)
    ensures LastAt(SparseRow(row), j) == if j < |row| && row[j] != 0 then Some(row[j]) else None
    decreases |row|
  {
    if row != [] {
      var m := |row|;
      var init := row[..m - 1];
      LastAtOfSparseRow(init, j);
      SparseRowAppend(row);
      if row[m - 1] != 0 {
        LastAtAppend(SparseRow(init), WeightPair(m - 1, row[m - 1]), j);
      } else {
        assert SparseRow(row) == SparseRow(init);
      }
    }
  }

  /** Export then re-densify in the same influence order gives back the row exactly. */
  lemma DensifySparseRow(row: seq<Weight>)
    ensures InRange(SparseRow(row), |row|)
    ensures Place(Zeros(|row|), SparseRow(row)) == row
  {
    var pairs := SparseRow(row);
    forall k | 0 <= k < |pairs| ensures pairs[k].influence < |row| {
      assert pairs[k] in ZipRow(Range(|row|), row);
    }
    var r := Place(Zeros(|row|), pairs);
    forall j | 0 <= j < |row| ensures r[j] == row[j] {
      LastAtOfSparseRow(row, j);
    }
  }

  /** `[w[i:i + n] for i in range(0, len(w), n)]`: consecutive slices of n, the last possibly shorter. */
  function Chunks(w: seq<Weight>, n: nat): (r: seq<seq<Weight>>)
    requires n > 0
    ensures forall k :: 0 <= k < |r| ==> 0 < |r[k]| <= n
    ensures forall k :: 0 <= k < |r| - 1 ==> |r[k]| == n
    decreases |w|
  {
    if w == [] then [] else if |w| <= n then [w] else [w[..n]] + Chunks(w[n..], n)
  }

  /** Chunking loses nothing: the chunks, concatenated, are the flat list again. */
  lemma {:induction false} FlattenChunks(w: seq<Weight>, n: nat)
    requires n > 0
    ensures Flatten(Chunks(w, n)) == w
    decreases |w|
  {
    if w != [] && |w| > n {
      FlattenChunks(w[n..], n);
      FlattenFront(w[..n], Chunks(w[n..], n));
      assert w[..n] + w[n..] == w;
    } else if w != [] {
      assert Flatten([w]) == Flatten([]) + w;
    }
  }

  /** Chunk k is the slice of n values starting at k * n, clamped at the end. */
  lemma ChunkAt(w: seq<Weight>, n: nat, k: nat)
    requires n > 0 && k < |Chunks(w, n)|
    ensures Chunks(w, n)[k] == Slice(w, k * n, n)
  {
    ChunkAtOffset(w, n, k);
    OffsetIsProduct(k, n);
  }

  /** k * n, counted up n at a time. */
  function Offset(k: nat, n: nat): nat
  {
    if k == 0 then 0 else Offset(k - 1, n) + n
  }

  lemma {:induction false} OffsetIsProduct(k: nat, n: nat)
    ensures Offset(k, n) == k * n
  {
    if k > 0 {
      OffsetIsProduct(k - 1, n);
      assert (k - 1) * n + n == k * n;
    }
  }

  lemma {:induction false} ChunkAtOffset(w: seq<Weight>, n: nat, k: nat)
    requires n > 0 && k < |Chunks(w, n)|
    ensures Chunks(w, n)[k] == Slice(w, Offset(k, n), n)
    decreases k
  {
    if k == 0 {
      assert w[0..] == w;
    } else {
      assert |w| > n;
      var m := Offset(k - 1, n);
      assert Chunks(w, n)[k] == Slice(w[n..], m, n) by {
        ChunkAtOffset(w[n..], n, k - 1);
        assert Chunks(w, n)[k] == Chunks(w[n..], n)[k - 1];
      }
      SliceShift(w, n, m);
    }
  }

  /** Slicing after dropping the first n values is slicing n further along. */
  lemma SliceShift(w: seq<Weight>, n: nat, m: nat)
    requires n <= |w|
    ensures Slice(w[n..], m, n) == Slice(w, m + n, n)
  {
    var a, b := Slice(w[n..], m, n), Slice(w, m + n, n);
    assert |a| == |b|;
    forall j | 0 <= j < |a| ensures a[j] == b[j] {
      assert a[j] == w[n..][m + j];
    }
  }

  /** The chunks from offset i on: a first slice of n values, then the chunks from i + n on. */
  lemma ChunksFrom(w: seq<Weight>, n: nat, i: nat)
    requires n > 0 && i < |w|
    ensures |Chunks(w[i..], n)| > 0 && Chunks(w[i..], n)[0] == Slice(w, i, n)
    ensures i + n <= |w| ==> Chunks(w[i + n..], n) == Chunks(w[i..], n)[1..]
    ensures i + n >= |w| ==> |Chunks(w[i..], n)| == 1
  {
    var rest := w[i..];
    if i + n <= |w| {
      assert rest[..n] == w[i..i + n];
      assert rest[n..] == w[i + n..];
    }
  }

  /** A loop over the chunks at offset i, having produced k of them: chunk k is the slice at i, and the rest start at i + n. */
  lemma ChunksNext(w: seq<Weight>, n: nat, i: nat, all: seq<seq<Weight>>, k: nat)
    requires n > 0 && i < |w| && k <= |all| && Chunks(w[i..], n) == all[k..]
    ensures k < |all| && all[k] == Slice(w, i, n)
    ensures all[..k] + [all[k]] == all[..k + 1]
    ensures i + n <= |w| ==> Chunks(w[i + n..], n) == all[k + 1..]
    ensures i + n > |w| ==> k + 1 == |all|
  {
    ChunksFrom(w, n, i);
    assert all[k + 1..] == all[k..][1..];
  }

  /** A flat list of m * n values falls into m chunks of exactly n values. */
  lemma {:induction false} ChunksCount(w: seq<Weight>, n: nat, m: nat)
    requires n > 0 && |w| == m * n
    ensures |Chunks(w, n)| == m && Uniform(Chunks(w, n), n)
    decreases m
  {
    if m > 1 {
      assert |w[n..]| == (m - 1) * n;
      ChunksCount(w[n..], n, m - 1);
    } else if m == 1 {
      assert |w| == n;
    }
  }

  /** The concatenation of rows, as `weight_matrix.extend(row)` builds it. */
  function Flatten(rows: seq<seq<Weight>>): seq<Weight>
    decreases |rows|
  {
    if rows == [] then [] else Flatten(rows[..|rows| - 1]) + rows[|rows| - 1]
  }

  lemma FlattenAppend(rows: seq<seq<Weight>>, row: seq<Weight>)
    ensures Flatten(rows + [row]) == Flatten(rows) + row
  {
    assert (rows + [row])[..|rows|] == rows;
  }

  lemma {:induction false} FlattenFront(row: seq<Weight>, rows: seq<seq<Weight>>)
    ensures Flatten([row] + rows) == row + Flatten(rows)
    decreases |rows|
  {
    if rows == [] {
      assert [row] + rows == [row];
      assert Flatten([row]) == Flatten([]) + row;
    } else {
      var init, last := rows[..|rows| - 1], rows[|rows| - 1];
      FlattenFront(row, init);
      assert [row] + rows == ([row] + init) + [last];
      FlattenAppend([row] + init, last);
      FlattenAppend(init, last);
    }
  }

  predicate Uniform(rows: seq<seq<Weight>>, n: nat)
  {
    forall k :: 0 <= k < |rows| ==> |rows[k]| == n
  }

  lemma {:induction false} FlattenLength(rows: seq<seq<Weight>>, n: nat)
    requires Uniform(rows, n)
    ensures |Flatten(rows)| == |rows| * n
    decreases |rows|
  {
    if rows != [] {
      var m := |rows|;
      FlattenLength(rows[..m - 1], n);
      assert (m - 1) * n + n == m * n;
    }
  }

  /** Cutting rows of one width n, concatenated, into chunks of n gives the rows back. */
  lemma {:induction false} ChunksOfFlatten(rows: seq<seq<Weight>>, n: nat)
    requires n > 0 && Uniform(rows, n)
    ensures Chunks(Flatten(rows), n) == rows
    decreases |rows|
  {
    if rows != [] {
      var rest := rows[1..];
      assert rows == [rows[0]] + rest;
      FlattenFront(rows[0], rest);
      FlattenLength(rest, n);
      ChunksOfFlatten(rest, n);
      var w := Flatten(rows);
      if rest == [] {
        assert w == rows[0];
      } else {
        assert w[..n] == rows[0] && w[n..] == Flatten(rest);
      }
    }
  }

  /** The weight of influence column c on vertex v of a flat list of width n, read through its chunks. */
  function WeightAt(w: seq<Weight>, n: nat, v: nat, c: nat): Option<Weight>
  {
    if n > 0 && v < |Chunks(w, n)| && c < |Chunks(w, n)[v]| then Some(Chunks(w, n)[v][c]) else None
  }

  /** In rows of one common width n, slot j of row k sits at offset k * n + j of the flat list. */
  lemma {:induction false} FlattenAt(rows: seq<seq<Weight>>, n: nat, k: nat, j: nat)
    requires Uniform(rows, n) && k < |rows| && j < n
    ensures |Flatten(rows)| == |rows| * n
    ensures k * n + j < |Flatten(rows)| && Flatten(rows)[k * n + j] == rows[k][j]
    decreases |rows|
  {
    var m := |rows|;
    var init := rows[..m - 1];
    FlattenLength(rows, n);
    FlattenLength(init, n);
    MulBound(k, j, n, m);
    assert Flatten(rows) == Flatten(init) + rows[m - 1];
    if k < m - 1 {
      FlattenAt(init, n, k, j);
    } else {
      assert k * n + j == |Flatten(init)| + j;
    }
  }

  /** Index arithmetic: slot j of row k lies before the end of m rows of width n. */
  lemma MulBound(k: nat, j: nat, n: nat, m: nat)
    requires k < m && j < n
    ensures k * n + j < m * n
  {
    assert (k + 1) * n <= m * n by {
      MulMono(k + 1, m, n);
    }
  }

  lemma MulMono(a: nat, b: nat, n: nat)
    requires a <= b
    ensures a * n <= b * n
  {
    assert b * n == a * n + (b - a) * n;
  }

  /** Column c of a flat row-major matrix of width n: `[w[v * n + c] for v in range(len(w) / n)]`. */
  function Column(w: seq<Weight>, n: nat, c: nat): (r: seq<Weight>)
    requires c < n
    ensures |r| == |w| / n
  {
    seq(|w| / n, v requires 0 <= v < |w| / n => (ColumnBound(w, n, c, v); w[v * n + c]))
  }

  lemma ColumnBound(w: seq<Weight>, n: nat, c: nat, v: nat)
    requires c < n && v < |w| / n
    ensures v * n + c < |w|
  {
    MulBound(v, c, n, |w| / n);
    assert (|w| / n) * n <= |w|;
  }

  /** A column has one weight per whole row of the matrix. */
  lemma ColumnFits(w: seq<Weight>, n: nat, c: nat)
    requires c < n
    ensures |Column(w, n, c)| * n <= |w|
  {
    assert (|w| / n) * n <= |w|;
  }

  lemma ColumnAt(w: seq<Weight>, n: nat, c: nat, v: nat)
    requires c < n && v < |w| / n
    ensures v * n + c < |w| && Column(w, n, c)[v] == w[v * n + c]
  {
    ColumnBound(w, n, c, v);
  }
}
