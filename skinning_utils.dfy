/**
 * `skinning_utils`: making a skinCluster with the influences found in the
 * scene, removing the influences that carry no weight, and finding a
 * geometry's skinCluster in its history. The joints `cmds.ls` lists, the
 * history `cmds.listHistory` reports and the skinCluster's own influence
 * queries are parameters or fields.
 */
module SkinningUtils {
  import opened Wrappers
  import opened Lists

  type Name = string

  // ---------------------------------------------------------------------------
  // `create_skin_cluster_from_geometry`

  /** The `cmds.skinCluster` call made: its joints, the geometry it deforms and the name it is given. */
  datatype NewCluster = NewCluster(joints: seq<Name>, geometry: Name, name: Name)

  /**
   * `create_skin_cluster_from_geometry`: sorts the influences into those in
   * the scene and those not, and gives up only when some are not and the
   * scene has no joints at all; otherwise the skinCluster is made with the
   * influences in the scene, in their given order.
   */
  method CreateSkinClusterFromGeometry(geometry: Name, influences: seq<Name>, sceneJoints: set<Name>)
    returns (r: Option<NewCluster>)
    ensures r.None? <==> |influences| > 0 && sceneJoints == {}
    ensures r.Some? ==> r.value == NewCluster(Keep(influences, sceneJoints), geometry, geometry + "_skinCluster")
    ensures r.Some? ==> multiset(r.value.joints) + multiset(Drop(influences, sceneJoints)) == multiset(influences)
    ensures r.Some? ==> forall j :: j in r.value.joints ==> j in sceneJoints
  {
    var existing, unused := Partition(influences, sceneJoints);
    if |influences| > 0 && sceneJoints == {} {
      assert influences[0] in unused;
    }
    if unused != [] && sceneJoints == {} {
      return None;
    }
    KeepDropPartition(influences, sceneJoints);
    return Some(NewCluster(existing, geometry, geometry + "_skinCluster"));
  }

  // ---------------------------------------------------------------------------
  // `remove_unused_influences`

  /** `xs.remove(y)` for each y of ys in turn. */
  function RemoveEach<T(==)>(xs: seq<T>, ys: seq<T>): seq<T>
    decreases |ys|
  {
    if ys == [] then xs else RemoveFirst(RemoveEach(xs, ys[..|ys| - 1]), ys[|ys| - 1])
  }

  /** Removing a value found before an appended element leaves that element at the end. */
  lemma RemoveFirstAppend<T>(a: seq<T>, z: T, d: T)
    ensures d in a ==> RemoveFirst(a + [z], d) == RemoveFirst(a, d) + [z]
    ensures d !in a && d == z ==> RemoveFirst(a + [z], d) == a
  {
    if d in a {
      RemoveFirstFound(a, z, d);
    } else if d == z {
      RemoveFirstLast(a, z);
    }
  }

  lemma {:induction false} RemoveFirstFound<T>(a: seq<T>, z: T, d: T)
    requires d in a
    ensures RemoveFirst(a + [z], d) == RemoveFirst(a, d) + [z]
    decreases |a|
  {
    assert (a + [z])[0] == a[0];
    assert (a + [z])[1..] == a[1..] + [z];
    if a[0] != d {
      RemoveFirstFound(a[1..], z, d);
    }
  }

  lemma {:induction false} RemoveFirstLast<T>(a: seq<T>, z: T)
    requires z !in a
    ensures RemoveFirst(a + [z], z) == a
    decreases |a|
  {
    if a != [] {
      assert (a + [z])[0] == a[0];
      assert (a + [z])[1..] == a[1..] + [z];
      RemoveFirstLast(a[1..], z);
    }
  }

  /** Removing values the list holds, with repeats, takes exactly those values away. */
  lemma {:induction false} RemoveEachCount<T>(xs: seq<T>, ys: seq<T>)
    requires multiset(ys) <= multiset(xs)
    ensures multiset(RemoveEach(xs, ys)) == multiset(xs) - multiset(ys)
    decreases |ys|
  {
    if ys != [] {
      var init, y := ys[..|ys| - 1], ys[|ys| - 1];
      assert ys == init + [y];
      assert multiset(ys) == multiset(init) + multiset{y};
      RemoveEachCount(xs, init);
      assert y in multiset(RemoveEach(xs, init));
    }
  }

  /** Removing values the list holds never touches an element appended after it. */
  lemma {:induction false} RemoveEachAppend<T>(xs: seq<T>, z: T, ys: seq<T>)
    requires multiset(ys) <= multiset(xs)
    ensures RemoveEach(xs + [z], ys) == RemoveEach(xs, ys) + [z]
    decreases |ys|
  {
    if ys != [] {
      var init, y := ys[..|ys| - 1], ys[|ys| - 1];
      assert ys == init + [y];
      assert multiset(ys) == multiset(init) + multiset{y};
      RemoveEachAppend(xs, z, init);
      RemoveEachCount(xs, init);
      assert y in multiset(RemoveEach(xs, init));
      RemoveFirstAppend(RemoveEach(xs, init), z, y);
    }
  }

  /**
   * Removing, one at a time, every element that is not in w leaves exactly
   * the elements in w, in their order, even when some value is repeated.
   */
  lemma {:induction false} RemoveDroppedLeavesKept<T>(xs: seq<T>, w: set<T>)
    ensures RemoveEach(xs, Drop(xs, w)) == Keep(xs, w)
    decreases |xs|
  {
    if xs != [] {
      var init, z := xs[..|xs| - 1], xs[|xs| - 1];
      assert xs == init + [z];
      RemoveDroppedLeavesKept(init, w);
      DroppedStep(init, z, w);
    }
  }

  /** The step of the induction: one more element, kept or dropped. */
  lemma DroppedStep<T>(init: seq<T>, z: T, w: set<T>)
    requires RemoveEach(init, Drop(init, w)) == Keep(init, w)
    ensures RemoveEach(init + [z], Drop(init + [z], w)) == Keep(init + [z], w)
  {
    var xs := init + [z];
    assert xs[..|xs| - 1] == init;
    var d := Drop(init, w);
    KeepDropPartition(init, w);
    RemoveEachAppend(init, z, d);
    if z !in w {
      DroppedStepDropped(init, z, w);
    } else {
      assert Drop(xs, w) == d;
      assert Keep(xs, w) == Keep(init, w) + [z];
    }
  }

  /** The dropped case of that step: the new element is removed again from the end. */
  lemma DroppedStepDropped<T>(init: seq<T>, z: T, w: set<T>)
    requires z !in w
    requires RemoveEach(init, Drop(init, w)) == Keep(init, w)
    requires RemoveEach(init + [z], Drop(init, w)) == RemoveEach(init, Drop(init, w)) + [z]
    requires multiset(Drop(init, w)) <= multiset(init)
    ensures RemoveEach(init + [z], Drop(init + [z], w)) == Keep(init + [z], w)
  {
    var xs := init + [z];
    assert xs[..|xs| - 1] == init;
    var d := Drop(init, w);
    assert Drop(xs, w) == d + [z];
    assert RemoveEach(xs, d + [z]) == RemoveFirst(RemoveEach(xs, d), z) by {
      assert (d + [z])[..|d|] == d;
    }
    assert z !in Keep(init, w);
    RemoveFirstLast(Keep(init, w), z);
  }

  /** A skinCluster's influences and, separately queried, those of them that carry weight. */
  class SkinClusterNode {
    var influences: seq<Name>
    var weighted: seq<Name>

    constructor(influences: seq<Name>, weighted: seq<Name>)
      ensures this.influences == influences && this.weighted == weighted
    {
      this.influences := influences;
      this.weighted := weighted;
    }

    /**
     * `remove_unused_influences`: collects the influences that are not
     * weighted, in order, then removes each of them from the skinCluster;
     * returns the ones removed.
     */
    method RemoveUnusedInfluences() returns (removed: seq<Name>)
      modifies this
      ensures removed == Drop(old(influences), Elements(weighted))
      ensures influences == Keep(old(influences), Elements(weighted))
      ensures weighted == old(weighted)
      ensures multiset(removed) + multiset(influences) == multiset(old(influences))
      ensures forall i :: 0 <= i < |removed| ==> removed[i] !in weighted
    {
      removed := UnweightedInfluences(influences, weighted);
      ghost var all := influences;
      RemoveInfluences(removed);
      UnusedRemoval(all, Elements(weighted));
    }

    /** The second loop: `cmds.skinCluster(..., removeInfluence=...)` for each name in turn. */
    method RemoveInfluences(names: seq<Name>)
      modifies this
      ensures influences == RemoveEach(old(influences), names)
      ensures weighted == old(weighted)
    {
      var k := 0;
      while k < |names|
        invariant 0 <= k <= |names|
        invariant influences == RemoveEach(old(influences), names[..k])
        invariant weighted == old(weighted)
      {
        assert names[..k + 1][..k] == names[..k];
        influences := RemoveFirst(influences, names[k]);
        k := k + 1;
      }
      assert names[..k] == names;
    }
  }

  /** Removing the dropped elements leaves the kept ones, and the two together are the whole list. */
  lemma UnusedRemoval<T>(all: seq<T>, w: set<T>)
    ensures RemoveEach(all, Drop(all, w)) == Keep(all, w)
    ensures multiset(Drop(all, w)) + multiset(Keep(all, w)) == multiset(all)
  {
    RemoveDroppedLeavesKept(all, w);
    KeepDropPartition(all, w);
  }

  /** The first loop of `remove_unused_influences`: every influence not in the weighted list, in order. */
  method UnweightedInfluences(all: seq<Name>, weighted: seq<Name>) returns (unused: seq<Name>)
    ensures unused == Drop(all, Elements(weighted))
  {
    unused := [];
    var i := 0;
    while i < |all|
      invariant 0 <= i <= |all|
      invariant unused == Drop(all[..i], Elements(weighted))
    {
      assert all[..i + 1][..i] == all[..i];
      if all[i] !in weighted {
        unused := unused + [all[i]];
      }
      i := i + 1;
    }
    assert all[..i] == all;
  }

  // ---------------------------------------------------------------------------
  // `get_skin_cluster_from_geometry`

  /** `cmds.ls(history, type="skinCluster")`, then its first element or None. */
  function SkinClusterFromGeometry(history: seq<Name>, skinClusters: set<Name>): Option<Name>
  {
    var found := Keep(history, skinClusters);
    if found == [] then None else Some(found[0])
  }

  /** The first element kept by a filter is the first element of the list that passes it. */
  lemma {:induction false} KeepFirst<T>(xs: seq<T>, s: set<T>)
    requires Keep(xs, s) != []
    ensures exists i :: 0 <= i < |xs| && xs[i] == Keep(xs, s)[0] && xs[i] in s && forall j :: 0 <= j < i ==> xs[j] !in s
    decreases |xs|
  {
    var init := xs[..|xs| - 1];
    if Keep(init, s) != [] {
      KeepFirst(init, s);
      var i :| 0 <= i < |init| && init[i] == Keep(init, s)[0] && init[i] in s && forall j :: 0 <= j < i ==> init[j] !in s;
      KeepFirstEarlier(xs, init, s, i);
    } else {
      KeepFirstLast(xs, s);
    }
  }

  /** The first kept element of the list without its last element is still the first kept element. */
  lemma KeepFirstEarlier<T>(xs: seq<T>, init: seq<T>, s: set<T>, i: nat)
    requires xs != [] && init == xs[..|xs| - 1] && i < |init|
    requires Keep(init, s) != [] && init[i] == Keep(init, s)[0] && init[i] in s
    requires forall j :: 0 <= j < i ==> init[j] !in s
    ensures exists i :: 0 <= i < |xs| && xs[i] == Keep(xs, s)[0] && xs[i] in s && forall j :: 0 <= j < i ==> xs[j] !in s
  {
    var last := xs[|xs| - 1];
    assert xs[i] == init[i];
    assert Keep(xs, s) == Keep(init, s) + (if last in s then [last] else []);
    forall j | 0 <= j < i ensures xs[j] !in s {
      assert xs[j] == init[j];
    }
  }

  /** When nothing before the last element is kept, the last element is the first kept. */
  lemma KeepFirstLast<T>(xs: seq<T>, s: set<T>)
    requires Keep(xs, s) != [] && Keep(xs[..|xs| - 1], s) == []
    ensures exists i :: 0 <= i < |xs| && xs[i] == Keep(xs, s)[0] && xs[i] in s && forall j :: 0 <= j < i ==> xs[j] !in s
  {
    var init, last := xs[..|xs| - 1], xs[|xs| - 1];
    assert Keep(xs, s) == Keep(init, s) + (if last in s then [last] else []);
    var i := |xs| - 1;
    forall j | 0 <= j < i ensures xs[j] !in s {
      assert xs[j] == init[j];
    }
    assert xs[i] == Keep(xs, s)[0] && xs[i] in s;
  }

  /**
   * A geometry's skinCluster is the first node of its history that is a
   * skinCluster, and there is none exactly when no node of it is one.
   */
  lemma SkinClusterFromGeometryFirst(history: seq<Name>, skinClusters: set<Name>)
    ensures SkinClusterFromGeometry(history, skinClusters).None? <==> forall i :: 0 <= i < |history| ==> history[i] !in skinClusters
    ensures SkinClusterFromGeometry(history, skinClusters).Some? ==>
      exists i :: 0 <= i < |history| && history[i] == SkinClusterFromGeometry(history, skinClusters).value &&
        history[i] in skinClusters && forall j :: 0 <= j < i ==> history[j] !in skinClusters
  {
    if Keep(history, skinClusters) != [] {
      KeepFirst(history, skinClusters);
    } else {
      assert forall i :: 0 <= i < |history| ==> history[i] !in skinClusters;
    }
  }
}
