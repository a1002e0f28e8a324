/**
 * `BaseSkinCluster` from skin_cluster.py: a handle on the skinCluster of one
 * mesh. It keeps the mesh name and the influence-index array it builds; every
 * other fact (influences, weights, points, blind data) is read from the host
 * scene each time it is needed, and edits go back to the host scene.
 */
module SkinCluster {
  import opened Wrappers
  import opened SkinModel

  /**
   * `cmds.ls(names, long=True)`: the long name of each given name the scene
   * knows, in order; a name the scene does not know is dropped.
   */
  function LongNames(names: seq<Name>, scene: map<Name, Name>): (r: seq<Name>)
    ensures |r| <= |names|
    ensures forall k :: 0 <= k < |names| && names[k] in scene ==> scene[names[k]] in r
    ensures forall x :: x in r ==> exists k :: 0 <= k < |names| && names[k] in scene && scene[names[k]] == x
  {
    if names == [] then []
    else
      var rest := LongNames(names[1..], scene);
      assert forall k :: 1 <= k < |names| ==> names[k] == names[1..][k - 1];
      (if names[0] in scene then [scene[names[0]]] else []) + rest
  }

  /**
   * Removing the influences that are present but carry no weight leaves
   * exactly the weighted ones.
   */
  lemma RemovingUnusedKeepsWeighted(infs: seq<Influence>, weighted: seq<Name>, unused: set<Name>)
    requires forall x :: x in unused <==> x in FullPaths(infs) && x !in weighted
    ensures forall k :: 0 <= k < |WithoutNamed(infs, unused)| ==> WithoutNamed(infs, unused)[k].fullPath in weighted
    ensures forall k :: 0 <= k < |infs| && infs[k].fullPath in weighted ==> infs[k] in WithoutNamed(infs, unused)
  {
    var r := WithoutNamed(infs, unused);
    forall k | 0 <= k < |r| ensures r[k].fullPath in weighted {
      var j :| 0 <= j < |infs| && infs[j] == r[k];
      assert FullPaths(infs)[j] == r[k].fullPath;
    }
  }

  class BaseSkinCluster {
    /** `_mesh`: the mesh name, "" while no mesh is set. */
    var mesh: Name
    /** `_influence_indexes`: null until a mesh is set. */
    var influenceIndexes: array?<nat>
    /** The host scene as the host API reports it for this mesh. */
    var host: HostMesh

    /** Sets the mesh, and so builds the influence indexes, only when a non-empty name is given. */
    constructor (mesh: Name, host: HostMesh)
      ensures this.mesh == mesh && this.host == host
      ensures mesh == "" ==> influenceIndexes == null
      ensures mesh != "" ==> influenceIndexes != null && fresh(influenceIndexes)
      ensures mesh != "" ==> influenceIndexes[..] == Range(|host.influences|)
    {
      this.mesh := "";
      this.influenceIndexes := null;
      this.host := host;
      new;
      if mesh != "" {
        SetMesh(mesh);
      }
    }

    /** `number_of_influences`. */
    function NumberOfInfluences(): nat
      reads this
    {
      |host.influences|
    }

    /** `number_of_verts`. */
    function NumberOfVerts(): nat
      reads this
    {
      |host.points|
    }

    /** `influences`: the full paths of the influence objects. */
    function Influences(): seq<Name>
      reads this
    {
      FullPaths(host.influences)
    }

    /** Switching mesh rebuilds the influence indexes for the influences the host now reports. */
    method SetMesh(m: Name)
      modifies this
      ensures mesh == m && host == old(host)
      ensures influenceIndexes != null && fresh(influenceIndexes)
      ensures influenceIndexes[..] == Range(|host.influences|)
    {
      mesh := m;
      BuildInfluenceIndexes();
    }

    /** An array of one slot per influence, slot i holding i. */
    method BuildInfluenceIndexes()
      modifies this
      ensures mesh == old(mesh) && host == old(host)
      ensures influenceIndexes != null && fresh(influenceIndexes)
      ensures influenceIndexes[..] == Range(|host.influences|)
    {
      var n := NumberOfInfluences();
      var a := new nat[n](_ => 0);
      influenceIndexes := a;
      var i := 0;
      while i < n
        invariant 0 <= i <= n && a.Length == n
        invariant influenceIndexes == a
        invariant mesh == old(mesh) && host == old(host)
        invariant forall k :: 0 <= k < i ==> a[k] == k
      {
        a[i] := i;
        i := i + 1;
      }
    }

    /**
     * The flat weight list cut into one chunk per vertex. A skinCluster without
     * influences makes `range` fail on its zero step.
     */
    method GetWeightChunks() returns (r: Result<seq<seq<Weight>>>)
      ensures NumberOfInfluences() == 0 ==> r == Err(ZeroStep)
      ensures NumberOfInfluences() > 0 ==> r == Ok(Chunks(host.weights, NumberOfInfluences()))
    {
      var weights := host.weights;
      var n := NumberOfInfluences();
      if n == 0 {
        return Err(ZeroStep);
      }
      ghost var all := Chunks(weights, n);
      var chunks: seq<seq<Weight>> := [];
      var i := 0;
      while i < |weights|
        invariant |chunks| <= |all| && chunks == all[..|chunks|]
        invariant i <= |weights| ==> Chunks(weights[i..], n) == all[|chunks|..]
        invariant i > |weights| ==> |chunks| == |all|
        decreases |weights| - i
      {
        ChunksNext(weights, n, i, all, |chunks|);
        chunks := chunks + [Slice(weights, i, n)];
        i := i + n;
      }
      if i == |weights| {
        assert weights[i..] == [];
        assert |all[|chunks|..]| == 0;
      }
      assert chunks == all;
      return Ok(chunks);
    }

    /**
     * One entry per vertex: the influence indexes zipped with that vertex's
     * chunk of the weight list. Without a mesh the first query of the
     * skinCluster object raises.
     */
    method GetWeightData() returns (r: Result<seq<seq<WeightPair>>>)
      ensures influenceIndexes == null ==> r == Err(NoMesh)
      ensures influenceIndexes != null && NumberOfInfluences() == 0 ==> r == Err(ZeroStep)
      ensures influenceIndexes != null && NumberOfInfluences() > 0 ==> r.Ok?
      ensures influenceIndexes != null && NumberOfInfluences() > 0 ==>
        |r.value| == |Chunks(host.weights, NumberOfInfluences())| &&
        forall k :: 0 <= k < |r.value| ==>
          r.value[k] == ZipRow(influenceIndexes[..], Chunks(host.weights, NumberOfInfluences())[k])
    {
      if influenceIndexes == null {
        return Err(NoMesh);
      }
      var weights := host.weights;
      var n := NumberOfInfluences();
      if n == 0 {
        return Err(ZeroStep);
      }
      var idx := influenceIndexes[..];
      ghost var all := Chunks(weights, n);
      var data: seq<seq<WeightPair>> := [];
      var i := 0;
      while i < |weights|
        invariant |data| <= |all|
        invariant forall k :: 0 <= k < |data| ==> data[k] == ZipRow(idx, all[k])
        invariant i <= |weights| ==> Chunks(weights[i..], n) == all[|data|..]
        invariant i > |weights| ==> |data| == |all|
        decreases |weights| - i
      {
        ChunksNext(weights, n, i, all, |data|);
        data := data + [ZipRow(idx, Slice(weights, i, n))];
        i := i + n;
      }
      return Ok(data);
    }

    /** `set(all influences) - set(weighted influences)`. */
    function UnusedInfluences(): (r: set<Name>)
      reads this
      ensures forall x :: x in r <==> x in Influences() && x !in host.weighted
    {
      set x | x in Influences() && x !in host.weighted
    }

    /**
     * Removes each unused influence from the skinCluster, in whatever order
     * the set yields them; what is left is exactly the weighted influences.
     */
    method RemoveUnusedInfluences()
      modifies this
      ensures mesh == old(mesh) && influenceIndexes == old(influenceIndexes)
      ensures host == old(host).(influences := WithoutNamed(old(host.influences), old(UnusedInfluences())))
      ensures forall k :: 0 <= k < |host.influences| ==> host.influences[k].fullPath in host.weighted
      ensures forall k :: 0 <= k < |old(host.influences)| && old(host.influences)[k].fullPath in host.weighted ==>
        old(host.influences)[k] in host.influences
    {
      var unused := UnusedInfluences();
      ghost var start := host;
      RemoveNamed(unused);
      RemovingUnusedKeepsWeighted(start.influences, start.weighted, unused);
    }

    /** The removal loop: each name of the set in turn, in whatever order the set yields them. */
    method RemoveNamed(names: set<Name>)
      modifies this
      ensures mesh == old(mesh) && influenceIndexes == old(influenceIndexes)
      ensures host == old(host).(influences := WithoutNamed(old(host.influences), names))
    {
      ghost var start := host;
      var removed: set<Name> := {};
      WithoutNamedNone(start.influences);
      while names - removed != {}
        invariant removed <= names
        invariant mesh == old(mesh) && influenceIndexes == old(influenceIndexes)
        invariant host == start.(influences := WithoutNamed(start.influences, removed))
        decreases |names - removed|
      {
        var x :| x in names - removed;
        WithoutNamedStep(start.influences, removed, x);
        host := host.(influences := WithoutNamed(host.influences, {x}));
        removed := removed + {x};
      }
      assert removed == names;
    }

    /**
     * `get_missing_influences`: the given names are first turned into long
     * names by `cmds.ls(influences, long=True)`, modelled by the scene's map
     * from each name it knows to that node's long name; then
     * `set(self.influences) - set(influences)` gives the current influences
     * that the long names lack. The docstring promises the reverse difference.
     */
    function MissingInfluences(given: seq<Name>, scene: map<Name, Name>): (r: set<Name>)
      reads this
      ensures forall x :: x in r <==> x in Influences() && x !in LongNames(given, scene)
    {
      set x | x in Influences() && x !in LongNames(given, scene)
    }

    /** The strings baked on the mesh under a blind-data type, as stored per vertex. */
    function Store(id: int): map<nat, string>
      reads this
    {
      if id in host.blindData then host.blindData[id] else map[]
    }

    /**
     * Writes one string per listed vertex under the blind-data type, creating
     * the type first when the scene does not have it. Different lengths are an
     * error and write nothing.
     */
    method BakeVertexBlindData(data: seq<string>, vertIds: seq<nat>, id: int) returns (r: Result<()>)
      modifies this
      ensures mesh == old(mesh) && influenceIndexes == old(influenceIndexes)
      ensures |data| != |vertIds| ==> r == Err(LengthMismatch) && host == old(host)
      ensures |data| == |vertIds| ==> r == Ok(()) && host == old(host).(
        blindTypes := old(host.blindTypes) + {id},
        blindData := old(host.blindData)[id := WriteStrings(old(Store(id)), vertIds, data)])
    {
      if |data| != |vertIds| {
        return Err(LengthMismatch);
      }
      if id !in host.blindTypes {
        host := host.(blindTypes := host.blindTypes + {id});
      }
      host := host.(blindData := host.blindData[id := WriteStrings(Store(id), vertIds, data)]);
      return Ok(());
    }

    /** `getStringBlindData` over every vertex: the host hands the strings back highest vertex first. */
    function VertexStringBlindData(id: int): seq<string>
      reads this
    {
      StoredDescending(Store(id), NumberOfVerts())
    }

    /** Hands the weight list to the host; the host's own normalisation is not modelled. */
    method SetWeights(matrix: seq<Weight>)
      modifies this
      ensures mesh == old(mesh) && influenceIndexes == old(influenceIndexes)
      ensures host == old(host).(weights := matrix)
    {
      host := host.(weights := matrix);
    }
  }
}
