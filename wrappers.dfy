/** Option and Result values for the source's `None` returns and raised exceptions. */
module Wrappers {

  datatype Option<+T> = None | Some(value: T)

  /** The exceptions and early returns the modelled code can reach, named after their cause. */
  datatype Error =
    | MissingInfluence(name: string)    // `list.index` raised ValueError
    | MissingVertex(id: int)            // an IndexError or KeyError on a vertex id
    | MissingColumn(index: int)         // an IndexError on an influence slot
    | InvalidMethod(given: string)      // `_get_points` raised TypeError
    | EmptyPointSet                     // a kd-tree over no points cannot answer a query
    | LengthMismatch                    // `bake_vertex_blind_data` raised ValueError
    | UnknownSnapshot(id: int)          // no blind data of that type on the mesh
    | Malformed(text: string)           // int()/float()/split() of text not in the expected shape
    | NoSelection                       // iterating over the `None` that an empty selection gives
    | ZeroStep                          // `range()` with a step of zero, or a division by zero
    | VertOrderMismatch                 // point-order import onto a mesh with another vertex count
    | VertCountMismatch(geometry: string) // imported data made for a mesh with another vertex count
    | NoMesh                            // `skin_cluster_object` raised: no mesh has been set on the wrapper

  datatype Result<+T> = Ok(value: T) | Err(error: Error)

  /** All values when every result is Ok; otherwise the error of the first result that is not. */
  function Collect<T>(rs: seq<Result<T>>): (r: Result<seq<T>>)
    ensures r.Ok? <==> forall i :: 0 <= i < |rs| ==> rs[i].Ok?
    ensures r.Ok? ==> |r.value| == |rs| && forall i :: 0 <= i < |rs| ==> rs[i] == Ok(r.value[i])
    decreases |rs|
  {
    if rs == [] then Ok([])
    else
      match Collect(rs[..|rs| - 1])
      case Err(e) => Err(e)
      case Ok(vs) =>
        match rs[|rs| - 1]
        case Err(e) => Err(e)
        case Ok(x) => Ok(vs + [x])
  }

  /** Collecting one more Ok result appends its value. */
  lemma CollectAppend<T>(rs: seq<Result<T>>, x: T)
    requires Collect(rs).Ok?
    ensures Collect(rs + [Ok(x)]) == Ok(Collect(rs).value + [x])
  {
    assert (rs + [Ok(x)])[..|rs|] == rs;
  }

  /** One more Ok result extends the collected prefix by its value. */
  lemma CollectStep<T>(rs: seq<Result<T>>, i: nat, prefix: seq<T>)
    requires i < |rs| && rs[i].Ok? && Collect(rs[..i]) == Ok(prefix)
    ensures Collect(rs[..i + 1]) == Ok(prefix + [rs[i].value])
  {
    CollectAppend(rs[..i], rs[i].value);
    assert rs[..i + 1] == rs[..i] + [Ok(rs[i].value)];
  }

  /** The first result that is not Ok decides the error. */
  lemma {:induction false} CollectFail<T>(rs: seq<Result<T>>, i: nat)
    requires i < |rs| && rs[i].Err? && Collect(rs[..i]).Ok?
    ensures Collect(rs) == Err(rs[i].error)
    decreases |rs|
  {
    if |rs| - 1 > i {
      var init := rs[..|rs| - 1];
      assert init[..i] == rs[..i];
      CollectFail(init, i);
    } else {
      assert rs[..|rs| - 1] == rs[..i];
    }
  }
}
