/**
 * `get_root_nodes_of_type`: for each DAG path listed, the path of its first
 * component of a given node type, looking no deeper than a search depth.
 * The paths `cmds.ls` lists and the node-type query `cmds.nodeType` are
 * parameters.
 */
module DgUtils {
  import opened Wrappers
  import opened Text

  /**
   * `search_depth or None`, then 1 promoted to 2 so that the leading empty
   * component of a `|`-rooted path still leaves the root node in reach.
   */
  function EffectiveDepth(searchDepth: Option<int>): (r: Option<int>)
    ensures r.None? <==> searchDepth.None? || searchDepth.value == 0
    ensures r.Some? ==> r.value != 0 && r.value != 1
    ensures r.Some? && searchDepth.value != 1 ==> r == searchDepth
    ensures searchDepth == Some(1) ==> r == Some(2)
  {
    match searchDepth
    case None => None
    case Some(d) => if d == 0 then None else if d == 1 then Some(2) else Some(d)
  }

  /** `xs[:stop]`: Python's slice with an optional stop that counts from the end when negative. */
  function SliceTo<T>(xs: seq<T>, stop: Option<int>): (r: seq<T>)
    ensures r <= xs
    ensures stop.None? ==> r == xs
    ensures stop.Some? && stop.value >= 0 ==> |r| == if stop.value <= |xs| then stop.value else |xs|
    ensures stop.Some? && stop.value < 0 ==> |r| == if |xs| + stop.value >= 0 then |xs| + stop.value else 0
  {
    match stop
    case None => xs
    case Some(d) =>
      if d >= 0 then (if d <= |xs| then xs[..d] else xs)
      else if |xs| + d >= 0 then xs[..|xs| + d] else []
  }

  /** The components `_get_root_node_of_type` looks at: the `|`-pieces of the path, cut at the depth. */
  function Hierarchy(path: string, depth: Option<int>): seq<string>
  {
    SliceTo(Split(path, '|'), depth)
  }

  /** A component that passes the query: not empty, and of the node type. */
  predicate Matches(node: string, nodeType: string, typeOf: string -> string)
  {
    node != "" && typeOf(node) == nodeType
  }

  /** The first position at or after k whose component matches. */
  function FirstMatch(h: seq<string>, nodeType: string, typeOf: string -> string, k: nat): (r: Option<nat>)
    ensures r.Some? ==> k <= r.value < |h| && Matches(h[r.value], nodeType, typeOf)
    ensures r.Some? ==> forall j :: k <= j < r.value ==> !Matches(h[j], nodeType, typeOf)
    ensures r.None? ==> forall j :: k <= j < |h| ==> !Matches(h[j], nodeType, typeOf)
    decreases |h| - k
  {
    if k >= |h| then None
    else if Matches(h[k], nodeType, typeOf) then Some(k)
    else FirstMatch(h, nodeType, typeOf, k + 1)
  }

  /**
   * `_get_root_node_of_type`: the hierarchy joined with `|` up to and
   * including its first matching component, or None when none matches.
   */
  function RootOf(path: string, nodeType: string, depth: Option<int>, typeOf: string -> string): Option<string>
  {
    var h := Hierarchy(path, depth);
    match FirstMatch(h, nodeType, typeOf, 0)
    case None => None
    case Some(i) => Some(Join(h[..i + 1], '|'))
  }

  /**
   * `get_root_nodes_of_type` over the listed paths: the set of their roots,
   * with the falsy values (`None`, and the empty string) filtered out.
   */
  function RootNodes(nodeType: string, paths: seq<string>, searchDepth: Option<int>, typeOf: string -> string): set<string>
  {
    var depth := EffectiveDepth(searchDepth);
    set p | p in paths && RootOf(p, nodeType, depth, typeOf).Some? && RootOf(p, nodeType, depth, typeOf).value != ""
      :: RootOf(p, nodeType, depth, typeOf).value
  }

  // ---------------------------------------------------------------------------
  // joins of prefixes

  /** Joining one more part appends the separator and the part. */
  lemma {:induction false} JoinAppend(ps: seq<string>, x: string, sep: char)
    ensures Join(ps + [x], sep) == if ps == [] then x else Join(ps, sep) + [sep] + x
    decreases |ps|
  {
    if |ps| > 1 {
      JoinAppend(ps[1..], x, sep);
      assert (ps + [x])[1..] == ps[1..] + [x];
    } else if |ps| == 1 {
      assert (ps + [x])[1..] == [x];
    }
  }

  /** The join of the first n parts, then the separator and the join of the rest, is the join of all. */
  lemma {:induction false} JoinSplitAt(parts: seq<string>, n: nat, sep: char)
    requires 1 <= n < |parts|
    ensures Join(parts[..n], sep) + [sep] + Join(parts[n..], sep) == Join(parts, sep)
    decreases n
  {
    if n == 1 {
      assert parts[..1] == [parts[0]];
    } else {
      JoinSplitAt(parts[1..], n - 1, sep);
      assert parts[1..][..n - 1] == parts[..n][1..];
      assert parts[1..][n - 1..] == parts[n..];
    }
  }

  // ---------------------------------------------------------------------------
  // properties

  /**
   * A root found for a path is a prefix of the path that ends at a component
   * boundary, is not empty, and its last component is of the node type.
   */
  lemma RootIsPrefix(path: string, nodeType: string, depth: Option<int>, typeOf: string -> string)
    requires RootOf(path, nodeType, depth, typeOf).Some?
    ensures var r := RootOf(path, nodeType, depth, typeOf).value;
      r <= path && (|r| == |path| || path[|r|] == '|') && r != "" && Matches(LastPiece(r, '|'), nodeType, typeOf)
  {
    var parts := Split(path, '|');
    var h := Hierarchy(path, depth);
    var i := FirstMatch(h, nodeType, typeOf, 0).value;
    var r := Join(h[..i + 1], '|');
    assert RootOf(path, nodeType, depth, typeOf).value == r;
    assert h[..i + 1] == parts[..i + 1];
    assert r <= path && (|r| == |path| || path[|r|] == '|') by {
      JoinPrefixOfSplit(path, '|', i + 1);
    }
    assert '|' !in h[i] by {
      assert h[i] == parts[i];
      SplitPiecesFree(path, '|');
    }
    assert LastPiece(r, '|') == h[i] by {
      JoinLastPiece(h[..i + 1], '|');
    }
    assert Matches(h[i], nodeType, typeOf);
    assert r != "" by {
      assert h[i] != "";
    }
  }

  /** Joining the first k pieces of a split gives a prefix of the text that ends where a separator or the text does. */
  lemma JoinPrefixOfSplit(path: string, sep: char, k: nat)
    requires 0 < k <= |Split(path, sep)|
    ensures var r := Join(Split(path, sep)[..k], sep);
      r <= path && (|r| == |path| || path[|r|] == sep)
  {
    var parts := Split(path, sep);
    var r := Join(parts[..k], sep);
    JoinSplit(path, sep);
    if k < |parts| {
      JoinSplitAt(parts, k, sep);
      assert path == r + [sep] + Join(parts[k..], sep);
      assert path[..|r|] == r;
    } else {
      assert parts[..k] == parts;
    }
  }

  /** The last piece of a join is the last part joined, when that part holds no separator. */
  lemma JoinLastPiece(ps: seq<string>, sep: char)
    requires ps != [] && sep !in ps[|ps| - 1]
    ensures LastPiece(Join(ps, sep), sep) == ps[|ps| - 1]
  {
    var i := |ps| - 1;
    assert ps == ps[..i] + [ps[i]];
    JoinAppend(ps[..i], ps[i], sep);
    if i == 0 {
      LastPieceOfFree(ps[i], sep);
    } else {
      LastPieceAfter(Join(ps[..i], sep), sep, ps[i]);
    }
  }

  /** A path has no root exactly when no component within the depth is both non-empty and of the type. */
  lemma NoRoot(path: string, nodeType: string, depth: Option<int>, typeOf: string -> string)
    ensures RootOf(path, nodeType, depth, typeOf).None? <==>
      forall j :: 0 <= j < |Hierarchy(path, depth)| ==> !Matches(Hierarchy(path, depth)[j], nodeType, typeOf)
  {
    var h := Hierarchy(path, depth);
    var m := FirstMatch(h, nodeType, typeOf, 0);
    if m.Some? {
      assert !Matches(h[m.value], nodeType, typeOf) ==> false;
    }
  }

  /** A root found within a depth d has no more than d components. */
  lemma RootWithinDepth(path: string, nodeType: string, d: nat, typeOf: string -> string)
    requires RootOf(path, nodeType, Some(d), typeOf).Some?
    ensures |Split(RootOf(path, nodeType, Some(d), typeOf).value, '|')| <= d
  {
    var h := Hierarchy(path, Some(d));
    var i := FirstMatch(h, nodeType, typeOf, 0).value;
    SplitPiecesFree(path, '|');
    assert forall k :: 0 <= k < i + 1 ==> h[..i + 1][k] == Split(path, '|')[k];
    SplitJoin(h[..i + 1], '|');
  }

  /** Empty components are never queried: what the type query says of the empty name changes nothing. */
  lemma {:induction false} EmptyNeverQueried(h: seq<string>, nodeType: string, t1: string -> string, t2: string -> string, k: nat)
    requires forall c :: c != "" ==> t1(c) == t2(c)
    ensures FirstMatch(h, nodeType, t1, k) == FirstMatch(h, nodeType, t2, k)
    decreases |h| - k
  {
    if k < |h| {
      assert Matches(h[k], nodeType, t1) == Matches(h[k], nodeType, t2);
      EmptyNeverQueried(h, nodeType, t1, t2, k + 1);
    }
  }

  /**
   * The result holds exactly the roots found, none of them empty: the filter
   * drops the paths without a root and nothing else.
   */
  lemma RootNodesExactly(nodeType: string, paths: seq<string>, searchDepth: Option<int>, typeOf: string -> string, x: string)
    ensures x in RootNodes(nodeType, paths, searchDepth, typeOf) <==>
      exists p :: p in paths && RootOf(p, nodeType, EffectiveDepth(searchDepth), typeOf) == Some(x)
    ensures x in RootNodes(nodeType, paths, searchDepth, typeOf) ==> x != ""
  {
    var depth := EffectiveDepth(searchDepth);
    if exists p :: p in paths && RootOf(p, nodeType, depth, typeOf) == Some(x) {
      var p :| p in paths && RootOf(p, nodeType, depth, typeOf) == Some(x);
      RootIsPrefix(p, nodeType, depth, typeOf);
    }
  }

  /** A depth of 1 searches like a depth of 2, and a depth of 0 like no depth at all. */
  lemma DepthPromotion(nodeType: string, paths: seq<string>, typeOf: string -> string)
    ensures RootNodes(nodeType, paths, Some(1), typeOf) == RootNodes(nodeType, paths, Some(2), typeOf)
    ensures RootNodes(nodeType, paths, Some(0), typeOf) == RootNodes(nodeType, paths, None, typeOf)
  {
    assert EffectiveDepth(Some(1)) == EffectiveDepth(Some(2));
    assert EffectiveDepth(Some(0)) == EffectiveDepth(None);
  }
}
