/**
 * `maya_utils`: the recursive search of the dependency graph for every node
 * downstream (or upstream) of some start nodes, the lookup of a
 * polyBlindData node by its type id, and the test whether a blind-data id
 * belongs to a piece of geometry. The graph `cmds.listConnections` walks,
 * the polyBlindData nodes `cmds.ls` lists and the current year are
 * parameters.
 */
module MayaUtils {
  import opened Wrappers
  import opened Text
  import Lists

  type Name = string

  /** The connections `cmds.listConnections` reports in one direction: each node's neighbours, by long name. */
  type Graph = map<Name, set<Name>>

  function Neighbours(g: Graph, n: Name): set<Name>
  {
    if n in g then g[n] else {}
  }

  /** `listConnections(list(start_nodes))` as a set: the neighbours of all the start nodes together. */
  function NextOf(g: Graph, start: set<Name>): (r: set<Name>)
    ensures forall n :: n in r <==> exists m :: m in start && n in Neighbours(g, m)
  {
    set m, n | m in start && n in Neighbours(g, m) :: n
  }

  /** Every node that is some node's neighbour: the graph's finite supply of nodes to find. */
  function Targets(g: Graph): (r: set<Name>)
    ensures forall m, n :: n in Neighbours(g, m) ==> n in r
  {
    set m, n | m in g && n in g[m] :: n
  }

  /** `max_depth and depth > max_depth`: a zero or absent limit never stops the search. */
  predicate TooDeep(maxDepth: Option<int>, depth: nat)
  {
    maxDepth.Some? && maxDepth.value != 0 && depth > maxDepth.value
  }

  /**
   * The set `_find_all_connections` leaves behind, starting from `visited`:
   * stop when too deep or when the start nodes have no connections; otherwise
   * add the connections not yet visited and search on from them alone.
   */
  function Connections(g: Graph, start: set<Name>, visited: set<Name>, maxDepth: Option<int>, depth: nat): (r: set<Name>)
    ensures visited <= r
    ensures r <= visited + Targets(g)
    decreases |Targets(g) - visited|
  {
    if TooDeep(maxDepth, depth) then visited
    else
      var connections := NextOf(g, start);
      if connections == {} then visited
      else
        var nonVisited := connections - visited;
        if nonVisited == {} then visited
        else
          Progress(g, start, visited);
          Connections(g, nonVisited, visited + nonVisited, maxDepth, depth + 1)
  }

  /** Each level of the search visits at least one new node, so fewer of the graph's nodes remain unvisited. */
  lemma Progress(g: Graph, start: set<Name>, visited: set<Name>)
    requires NextOf(g, start) - visited != {}
    ensures |Targets(g) - (visited + (NextOf(g, start) - visited))| < |Targets(g) - visited|
  {
    var nonVisited := NextOf(g, start) - visited;
    var x :| x in nonVisited;
    var m :| m in start && x in Neighbours(g, m);
    var left := Targets(g) - visited;
    assert x in left;
    Lists.SubsetSize(Targets(g) - (visited + nonVisited), left - {x});
  }

  /** One level of the search: it stops when too deep or when nothing new is connected, and otherwise goes one level deeper. */
  lemma ConnectionsLevel(g: Graph, start: set<Name>, visited: set<Name>, maxDepth: Option<int>, depth: nat)
    ensures Connections(g, start, visited, maxDepth, depth) ==
      if TooDeep(maxDepth, depth) || NextOf(g, start) - visited == {} then visited
      else Connections(g, NextOf(g, start) - visited, visited + (NextOf(g, start) - visited), maxDepth, depth + 1)
  {
  }

  /** The set that `_find_all_connections` updates in place, shared by every level of the recursion. */
  class ConnectionSearch {
    var nodes: set<Name>

    /** `set()`. */
    constructor()
      ensures nodes == {}
    {
      nodes := {};
    }

    /** `_find_all_connections(start_nodes, nodes, max_depth, depth)`. */
    method FindAllConnections(g: Graph, start: set<Name>, maxDepth: Option<int>, depth: nat)
      modifies this
      ensures nodes == Connections(g, start, old(nodes), maxDepth, depth)
      decreases |Targets(g) - nodes|
    {
      ConnectionsLevel(g, start, nodes, maxDepth, depth);
      if TooDeep(maxDepth, depth) {
        return;
      }
      var connections := NextOf(g, start);
      if connections == {} {
        return;
      }
      var nonVisited := connections - nodes;
      ghost var before := nodes;
      nodes := nodes + nonVisited;
      if nonVisited != {} {
        Progress(g, start, before);
        FindAllConnections(g, nonVisited, maxDepth, depth + 1);
      } else {
        assert nodes == before;
      }
    }
  }

  /** `find_all_outgoing` / `find_all_incoming`: the search from an empty set, over the graph of that direction. */
  method FindAll(g: Graph, start: set<Name>, maxDepth: Option<int>) returns (r: set<Name>)
    ensures r == Connections(g, start, {}, maxDepth, 0)
  {
    var search := new ConnectionSearch();
    search.FindAllConnections(g, start, maxDepth, 0);
    r := search.nodes;
  }

  // ---------------------------------------------------------------------------
  // what the search finds

  /** The nodes k steps away from the start nodes. */
  function Steps(g: Graph, start: set<Name>, k: nat): set<Name>
    decreases k
  {
    if k == 0 then start else Steps(g, NextOf(g, start), k - 1)
  }

  /** Fewer start nodes reach no more nodes. */
  lemma {:induction false} StepsMono(g: Graph, s1: set<Name>, s2: set<Name>, k: nat)
    requires s1 <= s2
    ensures Steps(g, s1, k) <= Steps(g, s2, k)
    decreases k
  {
    if k > 0 {
      assert NextOf(g, s1) <= NextOf(g, s2);
      StepsMono(g, NextOf(g, s1), NextOf(g, s2), k - 1);
    }
  }

  /** Predicate form of "n is k >= 1 steps from the start", so that quantifiers have a trigger. */
  predicate ReachedIn(g: Graph, start: set<Name>, n: Name, k: nat)
  {
    k >= 1 && n in Steps(g, start, k)
  }

  /**
   * Every node the search adds is some number of steps (at least one) away
   * from the start nodes: it finds nothing that is not connected to them.
   */
  lemma {:induction false} ConnectionsReachable(g: Graph, start: set<Name>, visited: set<Name>, maxDepth: Option<int>, depth: nat, n: Name)
    requires n in Connections(g, start, visited, maxDepth, depth) - visited
    ensures exists k :: ReachedIn(g, start, n, k)
    decreases |Targets(g) - visited|
  {
    var connections := NextOf(g, start);
    var nonVisited := connections - visited;
    var r := Connections(g, start, visited, maxDepth, depth);
    assert !TooDeep(maxDepth, depth) && connections != {} && nonVisited != {};
    if n in nonVisited {
      assert ReachedIn(g, start, n, 1);
    } else {
      Progress(g, start, visited);
      assert r == Connections(g, nonVisited, visited + nonVisited, maxDepth, depth + 1);
      ConnectionsReachable(g, nonVisited, visited + nonVisited, maxDepth, depth + 1, n);
      var k :| ReachedIn(g, nonVisited, n, k);
      ReachedLater(g, start, nonVisited, n, k);
    }
  }

  /** A node k steps from some of the start nodes' connections is k + 1 steps from the start nodes. */
  lemma ReachedLater(g: Graph, start: set<Name>, sub: set<Name>, n: Name, k: nat)
    requires sub <= NextOf(g, start) && ReachedIn(g, sub, n, k)
    ensures ReachedIn(g, start, n, k + 1)
  {
    StepsMono(g, sub, NextOf(g, start), k);
  }

  /**
   * Without a depth limit, the search takes in every connection of the start
   * nodes, and every connection of every node it adds: what it returns is
   * closed under the graph's connections.
   */
  lemma {:induction false} ConnectionsClosed(g: Graph, start: set<Name>, visited: set<Name>, maxDepth: Option<int>, depth: nat)
    requires !TooDeep(maxDepth, depth) && (maxDepth.None? || maxDepth.value == 0)
    ensures NextOf(g, start) <= Connections(g, start, visited, maxDepth, depth)
    ensures forall n :: n in Connections(g, start, visited, maxDepth, depth) - visited ==>
      Neighbours(g, n) <= Connections(g, start, visited, maxDepth, depth)
    decreases |Targets(g) - visited|
  {
    var connections := NextOf(g, start);
    var nonVisited := connections - visited;
    if connections != {} && nonVisited != {} {
      Progress(g, start, visited);
      var r := Connections(g, nonVisited, visited + nonVisited, maxDepth, depth + 1);
      assert Connections(g, start, visited, maxDepth, depth) == r;
      assert !TooDeep(maxDepth, depth + 1);
      ConnectionsClosed(g, nonVisited, visited + nonVisited, maxDepth, depth + 1);
      forall n | n in nonVisited ensures Neighbours(g, n) <= r {
        assert Neighbours(g, n) <= NextOf(g, nonVisited);
      }
    } else {
      assert Connections(g, start, visited, maxDepth, depth) == visited;
    }
  }

  /** Once deeper than a non-zero limit, the search adds nothing. */
  lemma DepthLimitStops(g: Graph, start: set<Name>, visited: set<Name>, limit: int, depth: nat)
    requires limit != 0 && depth > limit
    ensures Connections(g, start, visited, Some(limit), depth) == visited
  {
  }

  /**
   * `find_all_outgoing([node])` with no depth limit: exactly the nodes one or
   * more steps downstream of the node.
   */
  lemma FindAllIsReach(g: Graph, start: set<Name>, n: Name)
    ensures n in Connections(g, start, {}, None, 0) <==> exists k :: ReachedIn(g, start, n, k)
  {
    var r := Connections(g, start, {}, None, 0);
    if n in r {
      ConnectionsReachable(g, start, {}, None, 0, n);
    }
    if exists k :: ReachedIn(g, start, n, k) {
      var k :| ReachedIn(g, start, n, k);
      ConnectionsClosed(g, start, {}, None, 0);
      StepsInside(g, start, r, k);
    }
  }

  /** A set holding the start's connections and closed under connections holds every node 1..k steps away. */
  lemma {:induction false} StepsInside(g: Graph, start: set<Name>, r: set<Name>, k: nat)
    requires k >= 1 && NextOf(g, start) <= r
    requires forall n :: n in r ==> Neighbours(g, n) <= r
    ensures Steps(g, start, k) <= r
    decreases k
  {
    if k > 1 {
      assert NextOf(g, NextOf(g, start)) <= r;
      StepsInside(g, NextOf(g, start), r, k - 1);
    }
  }

  // ---------------------------------------------------------------------------
  // polyBlindData nodes

  /** A polyBlindData node and the integer value of its `typeId` attribute. */
  datatype BlindDataNode = BlindDataNode(name: Name, typeId: int)

  /** `[node for node in nodes if blind_data_id == int(typeId)]`, in listing order. */
  function WithId(nodes: seq<BlindDataNode>, id: int): (r: seq<BlindDataNode>)
    ensures forall k :: 0 <= k < |r| ==> r[k] in nodes && r[k].typeId == id
    ensures forall k :: 0 <= k < |nodes| && nodes[k].typeId == id ==> nodes[k] in r
    decreases |nodes|
  {
    if nodes == [] then []
    else (if nodes[0].typeId == id then [nodes[0]] else []) + WithId(nodes[1..], id)
  }

  /** The first listed node of that type id, or None: `blind_data_node[0] if blind_data_node else None`. */
  function NodeWithId(nodes: seq<BlindDataNode>, id: int): Option<Name>
  {
    var found := WithId(nodes, id);
    if found == [] then None else Some(found[0].name)
  }

  /** The lookup finds a node exactly when one has the id, and then the first such node in listing order. */
  lemma {:induction false} NodeWithIdFirst(nodes: seq<BlindDataNode>, id: int)
    ensures NodeWithId(nodes, id).None? <==> forall k :: 0 <= k < |nodes| ==> nodes[k].typeId != id
    ensures NodeWithId(nodes, id).Some? ==>
      exists k :: 0 <= k < |nodes| && nodes[k].typeId == id && nodes[k].name == NodeWithId(nodes, id).value &&
        forall j :: 0 <= j < k ==> nodes[j].typeId != id
    decreases |nodes|
  {
    if nodes != [] {
      var tail := nodes[1..];
      NodeWithIdFirst(tail, id);
      NodeWithIdCons(nodes, id);
      if nodes[0].typeId == id {
        assert 0 <= 0 < |nodes| && nodes[0].typeId == id && nodes[0].name == NodeWithId(nodes, id).value;
      } else if NodeWithId(tail, id).Some? {
        var k :| 0 <= k < |tail| && tail[k].typeId == id && tail[k].name == NodeWithId(tail, id).value &&
          forall j :: 0 <= j < k ==> tail[j].typeId != id;
        ShiftedFirst(nodes, id, k);
      } else {
        forall k | 0 <= k < |nodes| ensures nodes[k].typeId != id {
          if k > 0 {
            assert nodes[k] == tail[k - 1];
          }
        }
      }
    }
  }

  /** The lookup checks the first node, then looks further down the list. */
  lemma NodeWithIdCons(nodes: seq<BlindDataNode>, id: int)
    requires nodes != []
    ensures NodeWithId(nodes, id) ==
      if nodes[0].typeId == id then Some(nodes[0].name) else NodeWithId(nodes[1..], id)
  {
  }

  /** A first match at k in the tail of a list whose head does not match is a first match at k + 1. */
  lemma ShiftedFirst(nodes: seq<BlindDataNode>, id: int, k: nat)
    requires nodes != [] && nodes[0].typeId != id && k < |nodes| - 1
    requires forall j :: 0 <= j < k ==> nodes[1..][j].typeId != id
    ensures forall j :: 0 <= j < k + 1 ==> nodes[j].typeId != id
  {
    forall j | 0 <= j < k + 1 ensures nodes[j].typeId != id {
      if j > 0 {
        assert nodes[j] == nodes[1..][j - 1];
      }
    }
  }

  /** The id handed to `get_blind_data_node_from_id`: an int, or a string. */
  datatype IdArg = IntId(value: int) | TextId(text: string)

  /** `str.isdigit()` for the ASCII digits: not empty, digits only. */
  predicate IsDigitString(s: string)
  {
    s != "" && AllDigits(s)
  }

  /**
   * `get_blind_data_node_from_id`: a digit string is read as its number; any
   * other string only raises a warning and finds no node.
   */
  function BlindDataNodeFromId(nodes: seq<BlindDataNode>, id: IdArg): Option<Name>
  {
    match id
    case IntId(v) => NodeWithId(nodes, v)
    case TextId(t) => if IsDigitString(t) then NodeWithId(nodes, DigitsValue(t)) else None
  }

  /** A string id finds the node its number finds; a string that is not all digits finds none. */
  lemma TextIdAsNumber(nodes: seq<BlindDataNode>, t: string)
    ensures IsDigitString(t) ==> BlindDataNodeFromId(nodes, TextId(t)) == BlindDataNodeFromId(nodes, IntId(DigitsValue(t)))
    ensures !IsDigitString(t) ==> BlindDataNodeFromId(nodes, TextId(t)).None?
  {
  }

  /** The decimal text of a number finds the node the number finds. */
  lemma TextOfNumber(nodes: seq<BlindDataNode>, n: nat)
    ensures BlindDataNodeFromId(nodes, TextId(ShowNat(n))) == BlindDataNodeFromId(nodes, IntId(n))
  {
    ParseShowNat(n);
  }

  /**
   * `get_geometry_from_blind_data_node`: some transform among the nodes
   * downstream of the blind-data node, or None when there is none. Which one
   * `list(set(...))[0]` yields when there are several is the set's iteration
   * order, which is not modelled.
   */
  method GeometryFromBlindDataNode(outgoing: Graph, node: Name, transforms: set<Name>) returns (r: Option<Name>)
    ensures r.None? <==> Connections(outgoing, {node}, {}, None, 0) * transforms == {}
    ensures r.Some? ==> r.value in Connections(outgoing, {node}, {}, None, 0) && r.value in transforms
  {
    var downstream := FindAll(outgoing, {node}, None);
    var geometry := downstream * transforms;
    if geometry == {} {
      return None;
    }
    var g :| g in geometry;
    return Some(g);
  }

  /**
   * `is_blind_data_match`: true for the current year's id; otherwise true
   * when a node has the id and the transform found downstream of it is the
   * geometry.
   */
  method IsBlindDataMatch(geometry: Name, id: IdArg, currentYear: int, nodes: seq<BlindDataNode>, outgoing: Graph,
                          transforms: set<Name>) returns (b: bool)
    ensures id == IntId(currentYear) ==> b
    ensures id != IntId(currentYear) && b ==>
      (var node := BlindDataNodeFromId(nodes, id);
       node.Some? && node.value != "" && geometry in Connections(outgoing, {node.value}, {}, None, 0) * transforms)
    ensures (id != IntId(currentYear) && BlindDataNodeFromId(nodes, id).Some? && BlindDataNodeFromId(nodes, id).value != "" &&
             Connections(outgoing, {BlindDataNodeFromId(nodes, id).value}, {}, None, 0) * transforms == {geometry}) ==> b
  {
    if id == IntId(currentYear) {
      return true;
    }
    var node := BlindDataNodeFromId(nodes, id);
    if node.Some? && node.value != "" {
      var found := GeometryFromBlindDataNode(outgoing, node.value, transforms);
      ghost var downstream := Connections(outgoing, {node.value}, {}, None, 0) * transforms;
      if downstream == {geometry} {
        assert geometry in downstream;
        assert found.Some? && found.value in downstream;
      }
      if found == Some(geometry) {
        return true;
      }
    }
    return false;
  }
}
