/**
 * `utils/skin_utils`: the naming of a new skinCluster, the text between two
 * delimiters, the vertex selection read back from component strings, the
 * kd-tree query's result and the lookup of a polyBlindData node. The
 * selection `cmds.filterExpand` returns, the meshes `get_selected_meshes`
 * finds and the polyBlindData nodes `cmds.ls` lists are parameters; the
 * recursive search `_find_all_connections` is the one in MayaUtils.
 */
module SkinUtils {
  import opened Wrappers
  import opened Text
  import opened Geometry
  import MayaUtils

  type Name = string

  // ---------------------------------------------------------------------------
  // `create_skin_cluster` naming

  /** `"{mesh}_skinCluster"` with the mesh's last `|`-component: a short node name. */
  function SkinClusterName(mesh: Name): (r: Name)
    ensures '|' !in r
    ensures |r| > |"_skinCluster"| - 1 && r[|r| - |"_skinCluster"|..] == "_skinCluster"
  {
    LastPiece(mesh, '|') + "_skinCluster"
  }

  /** A long name and its leaf name give the same skinCluster name: the parents are dropped. */
  lemma SkinClusterNameOfPath(parent: Name, leaf: Name)
    requires '|' !in leaf
    ensures SkinClusterName(parent + "|" + leaf) == leaf + "_skinCluster"
    ensures SkinClusterName(leaf) == leaf + "_skinCluster"
  {
    assert parent + "|" + leaf == parent + ['|'] + leaf;
    LastPieceAfter(parent, '|', leaf);
    LastPieceOfFree(leaf, '|');
  }

  // ---------------------------------------------------------------------------
  // `find_between`

  /**
   * `find_between(value, first, last)`: Ok(None) unless both delimiters
   * occur; otherwise the text from just after the last `first` up to the
   * last `last` at or after that point, and an error where `rindex` finds no
   * such `last`.
   */
  function FindBetween(value: string, first: string, last: string): (r: Result<Option<string>>)
    ensures r == Ok(None) <==> !(Contains(value, first) && Contains(value, last))
    ensures r.Ok? && r.value.Some? ==> |r.value.value| <= |value|
  {
    if Contains(value, first) && Contains(value, last) then
      var start := LastIndexFrom(value, first, 0).value + |first|;
      match LastIndexFrom(value, last, start)
      case None => Err(Malformed(value))
      case Some(end) => Ok(Some(value[start..end]))
    else Ok(None)
  }

  /** i is where the last occurrence of sub in s starts. */
  ghost predicate LastAt(s: string, sub: string, i: int)
  {
    IsAt(s, sub, i) && forall k :: i < k ==> !IsAt(s, sub, k)
  }

  /** The last occurrence search from 0 finds the last occurrence. */
  lemma LastIndexIsLast(s: string, sub: string, i: nat)
    requires LastAt(s, sub, i)
    ensures LastIndexFrom(s, sub, 0) == Some(i)
  {
    var r := LastIndexFrom(s, sub, 0);
    assert r.Some?;
    assert !(r.value < i);
  }

  /**
   * With i the last `first` and j the last `last` and j at or after the end
   * of that `first`, the result is the text strictly between them.
   */
  lemma FindBetweenFound(value: string, first: string, last: string, i: nat, j: nat)
    requires LastAt(value, first, i) && LastAt(value, last, j) && i + |first| <= j
    ensures FindBetween(value, first, last) == Ok(Some(value[i + |first|..j]))
  {
    assert FirstIndexOf(value, first).Some? && FirstIndexOf(value, last).Some?;
    LastIndexIsLast(value, first, i);
    var end := LastIndexFrom(value, last, i + |first|);
    assert end.Some?;
    assert !(end.value < j);
  }

  /** With i the last `first`, the call fails exactly when no `last` starts at or after the end of it. */
  lemma FindBetweenFails(value: string, first: string, last: string, i: nat)
    requires LastAt(value, first, i)
    ensures FindBetween(value, first, last).Err? <==>
      Contains(value, last) && forall j :: i + |first| <= j ==> !IsAt(value, last, j)
  {
    assert FirstIndexOf(value, first).Some?;
    LastIndexIsLast(value, first, i);
  }

  /** The component string of vertex v, `mesh.vtx[v]`, has v's digits between its brackets, whatever the mesh is called. */
  lemma FindBetweenVertString(mesh: Name, v: nat)
    ensures FindBetween(VertString(mesh, v), "[", "]") == Ok(Some(ShowNat(v)))
  {
    var digits := ShowNat(v);
    var s := VertString(mesh, v);
    var i := |mesh| + 4;
    var j := |s| - 1;
    assert s == mesh + ".vtx[" + digits + "]";
    assert s[i] == '[' && s[j] == ']';
    assert forall k :: i < k < |s| ==> s[k] == ']' || IsDigit(s[k]) by {
      forall k | i < k < |s| ensures s[k] == ']' || IsDigit(s[k]) {
        if k < j {
          assert s[k] == digits[k - i - 1];
        }
      }
    }
    assert IsAt(s, "[", i) by { assert s[i..i + 1] == [s[i]]; }
    assert IsAt(s, "]", j) by { assert s[j..j + 1] == [s[j]]; }
    forall k | i < k ensures !IsAt(s, "[", k) {
      if k < |s| {
        assert s[k..k + 1] == [s[k]];
      }
    }
    forall k | j < k ensures !IsAt(s, "]", k) {
    }
    FindBetweenFound(s, "[", "]", i, j);
    assert s[i + 1..j] == digits;
  }

  // ---------------------------------------------------------------------------
  // `get_selected_verts` and `get_skin_selection`

  /** `int(find_between(vert, "[", "]"))` for one expanded vertex string. */
  function VertOf(vert: string): Result<nat>
  {
    match FindBetween(vert, "[", "]")
    case Err(e) => Err(e)
    case Ok(None) => Err(Malformed(vert))          // `int(None)` raises TypeError
    case Ok(Some(t)) =>
      match ParseNat(t)
      case None => Err(Malformed(t))
      case Some(n) => Ok(n)
  }

  /** Every vertex string in turn, in selection order. */
  function VertsOf(verts: seq<string>): (r: seq<Result<nat>>)
    ensures |r| == |verts| && forall i :: 0 <= i < |verts| ==> r[i] == VertOf(verts[i])
  {
    seq(|verts|, i requires 0 <= i < |verts| => VertOf(verts[i]))
  }

  /**
   * `get_selected_verts`: the vertex index of every selected vertex string,
   * in selection order. An empty selection comes back from `filterExpand` as
   * None, and iterating over it raises.
   */
  function SelectedVerts(selected: Option<seq<string>>): (r: Result<seq<nat>>)
    ensures selected.None? ==> r == Err(NoSelection)
    ensures r.Ok? ==> selected.Some? && |r.value| == |selected.value|
    ensures r.Ok? ==> forall i :: 0 <= i < |r.value| ==> VertOf(selected.value[i]) == Ok(r.value[i])
    ensures selected.Some? ==> (r.Ok? <==> forall i :: 0 <= i < |selected.value| ==> VertOf(selected.value[i]).Ok?)
  {
    match selected
    case None => Err(NoSelection)
    case Some(verts) => Collect(VertsOf(verts))
  }

  /** The component strings of some vertices, one mesh name per vertex. */
  function VertStrings(meshes: seq<Name>, vs: seq<nat>): (r: seq<string>)
    requires |meshes| == |vs|
    ensures |r| == |vs| && forall i :: 0 <= i < |vs| ==> r[i] == VertString(meshes[i], vs[i])
  {
    seq(|vs|, i requires 0 <= i < |vs| => VertString(meshes[i], vs[i]))
  }

  /** Reading back the component strings of some vertices gives those vertices, in the same order. */
  lemma SelectedVertsOfStrings(meshes: seq<Name>, vs: seq<nat>)
    requires |meshes| == |vs|
    ensures SelectedVerts(Some(VertStrings(meshes, vs))) == Ok(vs)
  {
    var strings := VertStrings(meshes, vs);
    forall i | 0 <= i < |vs| ensures VertOf(strings[i]) == Ok(vs[i]) {
      FindBetweenVertString(meshes[i], vs[i]);
      ParseShowNat(vs[i]);
    }
    var r := SelectedVerts(Some(strings));
    assert r.Ok?;
    assert r.value == vs;
  }

  /** What `get_skin_selection` returns: the meshes, and the vertices as read (None or empty when none were). */
  datatype SkinSelection = SkinSelection(meshes: seq<Name>, verts: Option<seq<nat>>)

  /**
   * `get_skin_selection`: with a non-empty vertex selection, the mesh named
   * before `.vtx` in its first string and the selected vertex indexes;
   * otherwise the selected meshes, and the empty selection handed back as is.
   */
  function SkinSelectionOf(selected: Option<seq<string>>, selectedMeshes: seq<Name>): (r: Result<SkinSelection>)
    ensures (selected.None? || selected.value == []) ==>
      r == Ok(SkinSelection(selectedMeshes, if selected.None? then None else Some([])))
    ensures selected.Some? && selected.value != [] ==>
      (r.Ok? <==> SelectedVerts(selected).Ok?)
    ensures r.Ok? && selected.Some? && selected.value != [] ==>
      |r.value.meshes| == 1 && r.value.verts == Some(SelectedVerts(selected).value) &&
      r.value.meshes[0] <= selected.value[0] &&
      (Contains(selected.value[0], ".vtx") ==> r.value.meshes[0] + ".vtx" <= selected.value[0]) &&
      (!Contains(selected.value[0], ".vtx") ==> r.value.meshes[0] == selected.value[0])
  {
    match selected
    case None => Ok(SkinSelection(selectedMeshes, None))
    case Some(verts) =>
      if verts == [] then Ok(SkinSelection(selectedMeshes, Some([])))
      else
        var mesh := BeforeFirst(verts[0], ".vtx");
        match SelectedVerts(selected)
        case Err(e) => Err(e)
        case Ok(vs) => Ok(SkinSelection([mesh], Some(vs)))
  }

  /** The text before `.vtx` in the component string of a vertex is the mesh, when the mesh name has no `.`. */
  lemma MeshOfVertString(mesh: Name, v: nat)
    requires '.' !in mesh
    ensures BeforeFirst(VertString(mesh, v), ".vtx") == mesh
  {
    var s := VertString(mesh, v);
    assert s == mesh + (".vtx[" + ShowNat(v) + "]");
    assert IsAt(s, ".vtx", |mesh|) by { assert s[|mesh|..|mesh| + 4] == ".vtx"; }
    forall k | 0 <= k < |mesh| ensures !IsAt(s, ".vtx", k) {
      assert s[k] == mesh[k];
      if k + 4 <= |s| {
        assert s[k..k + 4][0] == s[k];
      }
    }
    var f := FirstIndexOf(s, ".vtx");
    assert f.Some? && !(f.value < |mesh|) && !(f.value > |mesh|);
  }

  /** For the component strings of some vertices of one mesh without `.` in its name, the mesh and the vertices come back. */
  lemma SkinSelectionOfStrings(mesh: Name, vs: seq<nat>)
    requires '.' !in mesh && |vs| > 0
    ensures SkinSelectionOf(Some(VertStrings(seq(|vs|, _ => mesh), vs)), []) == Ok(SkinSelection([mesh], Some(vs)))
  {
    var meshes := seq(|vs|, _ => mesh);
    var strings := VertStrings(meshes, vs);
    SelectedVertsOfStrings(meshes, vs);
    MeshOfVertString(mesh, vs[0]);
    assert strings[0] == VertString(mesh, vs[0]);
  }

  // ---------------------------------------------------------------------------
  // `get_closest_point_in_kdtree`

  /** The query's answer, in the order the source returns it: the index, the point there, and how far it is. */
  datatype Nearest = Nearest(index: nat, point: Vec3, sqDistance: real)

  /**
   * `get_closest_point_in_kdtree` over a tree built from `src`: a nearest
   * source point's index, that source point, and its (squared) distance from
   * the query. A tree over no points answers with an index past the end, and
   * reading the point there raises.
   */
  function ClosestPointInKdtree(src: seq<Vec3>, q: Vec3): (r: Result<Nearest>)
    ensures r.Err? <==> |src| == 0
    ensures r.Ok? ==> IsNearest(src, q, r.value.index)
    ensures r.Ok? ==> r.value.index < |src| && r.value.point == src[r.value.index]
    ensures r.Ok? ==> r.value.sqDistance == SqDist(r.value.point, q) && r.value.sqDistance >= 0.0
  {
    if |src| == 0 then Err(EmptyPointSet)
    else
      var i := Closest(src, q);
      SqDistNonNegative(src[i], q);
      Ok(Nearest(i, src[i], SqDist(src[i], q)))
  }

  /** A query at one of the source points is answered at distance zero, by a point at the same place. */
  lemma ClosestPointOfSourcePoint(src: seq<Vec3>, i: nat)
    requires i < |src|
    ensures ClosestPointInKdtree(src, src[i]).Ok?
    ensures ClosestPointInKdtree(src, src[i]).value.sqDistance == 0.0
  {
    var r := ClosestPointInKdtree(src, src[i]).value;
    assert SqDist(src[r.index], src[i]) <= SqDist(src[i], src[i]);
    SqDistNonNegative(src[i], src[i]);
  }

  // ---------------------------------------------------------------------------
  // polyBlindData lookups

  /**
   * `get_blind_data_node_from_id` of this module: the id is compared with
   * each node's integer `typeId` as it is, so a string id never matches.
   */
  function NodeFromId(nodes: seq<MayaUtils.BlindDataNode>, id: MayaUtils.IdArg): Option<Name>
  {
    match id
    case IntId(v) => MayaUtils.NodeWithId(nodes, v)
    case TextId(_) => None
  }

  /**
   * An integer id finds what the lookup in MayaUtils finds; a string id finds
   * nothing here, even the digit string of an id that MayaUtils finds.
   */
  lemma NodeFromIdAgainstMayaUtils(nodes: seq<MayaUtils.BlindDataNode>, id: MayaUtils.IdArg)
    ensures id.IntId? ==> NodeFromId(nodes, id) == MayaUtils.BlindDataNodeFromId(nodes, id)
    ensures id.TextId? ==> NodeFromId(nodes, id).None?
    ensures (id.TextId? && MayaUtils.IsDigitString(id.text) &&
             MayaUtils.BlindDataNodeFromId(nodes, MayaUtils.IntId(DigitsValue(id.text))).Some?) ==>
      NodeFromId(nodes, id) != MayaUtils.BlindDataNodeFromId(nodes, id)
  {
    if id.TextId? {
      MayaUtils.TextIdAsNumber(nodes, id.text);
    }
  }

  /**
   * `get_mesh_from_blind_data_id`: some transform downstream of the first
   * polyBlindData node with the id, or None.
   */
  method MeshFromBlindDataId(nodes: seq<MayaUtils.BlindDataNode>, id: int, outgoing: MayaUtils.Graph, transforms: set<Name>)
    returns (r: Option<Name>)
    ensures r.Some? ==> (MayaUtils.NodeWithId(nodes, id).Some? &&
      r.value in MayaUtils.Connections(outgoing, {MayaUtils.NodeWithId(nodes, id).value}, {}, None, 0) * transforms)
    ensures MayaUtils.NodeWithId(nodes, id).Some? ==>
      (r.None? <==> MayaUtils.Connections(outgoing, {MayaUtils.NodeWithId(nodes, id).value}, {}, None, 0) * transforms == {})
  {
    var node := NodeFromId(nodes, MayaUtils.IntId(id));
    if node.None? {
      return None;
    }
    r := MayaUtils.GeometryFromBlindDataNode(outgoing, node.value, transforms);
  }
}
