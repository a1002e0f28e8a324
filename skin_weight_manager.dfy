/**
 * The oldest revision of the engine: `SkinData` reads a skinCluster's weights
 * into a dict of per-influence columns keyed by namespace-free influence names,
 * and writes such a dict back by name; the module functions around it decide
 * whether an import can reuse the existing skinCluster, check vertex counts,
 * read vertex indexes out of selection strings, and bake and unbake weights
 * as per-vertex blind-data strings under the fixed type id 201607.
 */
module SkinWeightManager {
  import opened Wrappers
  import opened Text
  import opened Lists
  import opened SkinModel
  import opened BakeFormat
  import Skinning

  /** The blind-data type id this revision bakes under and unbakes from. */
  const BLIND_DATA_ID: int := 201607

  /**
   * `remove_namespace`: the name with every `ns:` prefix dropped, that is the
   * text after its last `:`.
   */
  function RemoveNamespace(name: Name): (r: Name)
    ensures ':' !in r
  {
    LastPiece(name, ':')
  }

  /** Stripping namespaces twice strips nothing more. */
  lemma RemoveNamespaceIdempotent(name: Name)
    ensures RemoveNamespace(RemoveNamespace(name)) == RemoveNamespace(name)
  {
    LastPieceOfFree(RemoveNamespace(name), ':');
  }

  /** The namespace-free partial path of every influence, in influence order. */
  function StrippedNames(infs: seq<Influence>): (r: seq<Name>)
    ensures |r| == |infs| && forall k :: 0 <= k < |infs| ==> r[k] == RemoveNamespace(infs[k].partialPath)
  {
    StrippedNamesOf(PartialPaths(infs))
  }

  // ---------------------------------------------------------------------------
  // the `weights` dict

  /** The `weights` dict of the data: its (influence name, column) items in iteration order. */
  type Items = seq<(Name, seq<Weight>)>

  function Keys(items: Items): (r: seq<Name>)
    ensures |r| == |items| && forall k :: 0 <= k < |items| ==> r[k] == items[k].0
  {
    seq(|items|, k requires 0 <= k < |items| => items[k].0)
  }

  /** A dict holds each key once. */
  predicate IsDict(items: Items)
  {
    Distinct(Keys(items))
  }

  /** `d.get(key)`. */
  function Get(items: Items, key: Name): (r: Option<seq<Weight>>)
    ensures r.Some? <==> key in Keys(items)
  {
    match IndexOf(Keys(items), key)
    case Some(i) => Some(items[i].1)
    case None => None
  }

  /** `d[key] = value`: a present key keeps its place and takes the new value; a new key goes last. */
  function Assign(items: Items, key: Name, value: seq<Weight>): (r: Items)
    ensures Get(r, key) == Some(value)
    ensures forall k :: k != key ==> Get(r, k) == Get(items, k)
    ensures IsDict(items) ==> IsDict(r)
    ensures forall k :: 0 <= k < |r| ==> r[k] in items || r[k] == (key, value)
  {
    match IndexOf(Keys(items), key)
    case Some(i) =>
      AssignPresent(items, key, value, i);
      items[i := (key, value)]
    case None =>
      AssignNew(items, key, value);
      items + [(key, value)]
  }

  /** Assigning a present key replaces its item in place. */
  lemma AssignPresent(items: Items, key: Name, value: seq<Weight>, i: nat)
    requires IndexOf(Keys(items), key) == Some(i)
    ensures var r := items[i := (key, value)];
      Get(r, key) == Some(value) &&
      (forall k :: k != key ==> Get(r, k) == Get(items, k)) &&
      (IsDict(items) ==> IsDict(r)) &&
      (forall k :: 0 <= k < |r| ==> r[k] in items || r[k] == (key, value))
  {
    assert Keys(items[i := (key, value)]) == Keys(items);
  }

  /** Assigning a new key appends its item. */
  lemma AssignNew(items: Items, key: Name, value: seq<Weight>)
    requires IndexOf(Keys(items), key).None?
    ensures var r := items + [(key, value)];
      Get(r, key) == Some(value) &&
      (forall k :: k != key ==> Get(r, k) == Get(items, k)) &&
      (IsDict(items) ==> IsDict(r)) &&
      (forall k :: 0 <= k < |r| ==> r[k] in items || r[k] == (key, value))
  {
    var r := items + [(key, value)];
    KeysAppend(items, (key, value));
    AssignNewGet(items, key, value);
    assert IsDict(items) ==> IsDict(r) by {
      DistinctAppend(Keys(items), key);
    }
  }

  /** After appending a new key, the key reads the new value and every other key reads what it did. */
  lemma AssignNewGet(items: Items, key: Name, value: seq<Weight>)
    requires key !in Keys(items)
    ensures Get(items + [(key, value)], key) == Some(value)
    ensures forall k :: k != key ==> Get(items + [(key, value)], k) == Get(items, k)
  {
    var ks := Keys(items + [(key, value)]);
    KeysAppend(items, (key, value));
    assert ks[..|ks| - 1] == Keys(items);
    IndexOfPrefix(ks, key);
    forall k | k != key ensures Get(items + [(key, value)], k) == Get(items, k) {
      IndexOfPrefix(ks, k);
    }
  }

  /** A list stays free of repeats when an element it lacks is appended. */
  lemma DistinctAppend<T>(xs: seq<T>, x: T)
    requires x !in xs
    ensures Distinct(xs) ==> Distinct(xs + [x])
  {
  }

  /** The keys of a dict built by appending one item are the old keys and the new one. */
  lemma KeysAppend(items: Items, item: (Name, seq<Weight>))
    ensures Keys(items + [item]) == Keys(items) + [item.0]
  {
  }

  // ---------------------------------------------------------------------------
  // gathering: `get_influence_weights`

  /**
   * The dict after `get_influence_weights` has stored, for the first
   * |names| influences in order, column c of the flat weight list of
   * stride n under the namespace-free partial path of influence c.
   */
  function InfluenceColumns(items: Items, w: seq<Weight>, names: seq<Name>, n: nat): Items
    requires |names| <= n
    decreases |names|
  {
    if names == [] then items
    else
      var k := |names| - 1;
      Assign(InfluenceColumns(items, w, names[..k], n), RemoveNamespace(names[k]), Column(w, n, k))
  }

  /** One more influence gathered: its column is assigned under its namespace-free name. */
  lemma InfluenceColumnsStep(items: Items, w: seq<Weight>, names: seq<Name>, n: nat, count: nat)
    requires count < |names| <= n
    ensures InfluenceColumns(items, w, names[..count + 1], n) ==
      Assign(InfluenceColumns(items, w, names[..count], n), RemoveNamespace(names[count]), Column(w, n, count))
  {
    assert names[..count + 1][..count] == names[..count];
  }

  /**
   * Gathering stores, under an influence's namespace-free name, that
   * influence's column, unless a later influence has the same namespace-free name.
   */
  lemma {:induction false} InfluenceColumnsAt(items: Items, w: seq<Weight>, names: seq<Name>, n: nat, c: nat)
    requires |names| <= n && c < |names|
    requires forall d :: c < d < |names| ==> RemoveNamespace(names[d]) != RemoveNamespace(names[c])
    ensures Get(InfluenceColumns(items, w, names, n), RemoveNamespace(names[c])) == Some(Column(w, n, c))
    decreases |names|
  {
    var k := |names| - 1;
    var init := names[..k];
    var prev := InfluenceColumns(items, w, init, n);
    assert InfluenceColumns(items, w, names, n) == Assign(prev, RemoveNamespace(names[k]), Column(w, n, k));
    if c < k {
      assert Get(prev, RemoveNamespace(names[c])) == Some(Column(w, n, c)) by {
        assert init[c] == names[c];
        forall d | c < d < k ensures RemoveNamespace(init[d]) != RemoveNamespace(init[c]) {
          assert init[d] == names[d];
        }
        InfluenceColumnsAt(items, w, init, n, c);
      }
      assert RemoveNamespace(names[k]) != RemoveNamespace(names[c]);
    }
  }

  /** Gathering onto a dict gives a dict. */
  lemma {:induction false} InfluenceColumnsDict(items: Items, w: seq<Weight>, names: seq<Name>, n: nat)
    requires |names| <= n && IsDict(items)
    ensures IsDict(InfluenceColumns(items, w, names, n))
    decreases |names|
  {
    if names != [] {
      InfluenceColumnsDict(items, w, names[..|names| - 1], n);
    }
  }

  /** Gathering leaves the entry of a name that no influence has as it was. */
  lemma {:induction false} InfluenceColumnsElsewhere(items: Items, w: seq<Weight>, names: seq<Name>, n: nat, key: Name)
    requires |names| <= n
    requires forall d :: 0 <= d < |names| ==> RemoveNamespace(names[d]) != key
    ensures Get(InfluenceColumns(items, w, names, n), key) == Get(items, key)
    decreases |names|
  {
    if names != [] {
      InfluenceColumnsElsewhere(items, w, names[..|names| - 1], n, key);
    }
  }

  // ---------------------------------------------------------------------------
  // importing: `set_influence_weights`

  /** Whether the row of vertex `count` is written: every row when no vertex is selected, else the selected ones. */
  predicate Imported(sel: seq<nat>, count: nat)
  {
    sel == [] || count in sel
  }

  /**
   * The flat weight list after writing the first k values of one imported
   * column into column c, row by row, skipping unselected rows; a write past
   * the end of the list fails.
   */
  function WriteColumn(w: seq<Weight>, n: nat, c: nat, vals: seq<Weight>, sel: seq<nat>, k: nat): (r: Result<seq<Weight>>)
    requires k <= |vals|
    ensures r.Ok? ==> |r.value| == |w|
    decreases k
  {
    if k == 0 then Ok(w)
    else
      match WriteColumn(w, n, c, vals, sel, k - 1)
      case Err(e) => Err(e)
      case Ok(w1) =>
        var count := k - 1;
        if !Imported(sel, count) then Ok(w1)
        else if count * n + c < |w1| then Ok(w1[count * n + c := vals[count]])
        else Err(MissingVertex(count))
  }

  /** Every index of a row-major list of width n is the cell of some (row, column). */
  lemma RowColumn(i: nat, n: nat) returns (v: nat, j: nat)
    requires n > 0
    ensures j < n && i == v * n + j
  {
    v, j := i / n, i % n;
  }

  /** A cell of a row-major list of width n names exactly one (row, column). */
  lemma SameCell(v: nat, j: nat, u: nat, c: nat, n: nat)
    requires j < n && c < n && v * n + j == u * n + c
    ensures v == u && j == c
  {
    Skinning.DivMod(v * n + j, v, j, n);
    Skinning.DivMod(u * n + c, u, c, n);
  }

  /** Two (row, column) pairs of width n name the same offset exactly when they are equal. */
  lemma CellIff(v: nat, j: nat, u: nat, c: nat, n: nat)
    requires j < n && c < n
    ensures v * n + j == u * n + c <==> v == u && j == c
  {
    if v * n + j == u * n + c {
      SameCell(v, j, u, c, n);
    }
  }

  /** Writing a column succeeds exactly when every written row lies inside the list. */
  lemma {:induction false} WriteColumnOk(w: seq<Weight>, n: nat, c: nat, vals: seq<Weight>, sel: seq<nat>, k: nat)
    requires k <= |vals|
    ensures WriteColumn(w, n, c, vals, sel, k).Ok? <==>
      forall count :: 0 <= count < k && Imported(sel, count) ==> count * n + c < |w|
    decreases k
  {
    if k > 0 {
      WriteColumnOk(w, n, c, vals, sel, k - 1);
    }
  }

  /**
   * A column write changes only column c of the written rows, each to the
   * imported value of its row: every other cell keeps its weight.
   */
  lemma {:induction false} WrittenCell(w: seq<Weight>, n: nat, c: nat, vals: seq<Weight>, sel: seq<nat>, k: nat, v: nat, j: nat)
    requires k <= |vals| && c < n && j < n && v * n + j < |w|
    requires WriteColumn(w, n, c, vals, sel, k).Ok?
    ensures WriteColumn(w, n, c, vals, sel, k).value[v * n + j] ==
      if j == c && v < k && Imported(sel, v) then vals[v] else w[v * n + j]
    decreases k
  {
    if k > 0 {
      WrittenCell(w, n, c, vals, sel, k - 1, v, j);
      CellIff(v, j, k - 1, c, n);
    }
  }

  /** Once a write has failed, writing further rows keeps the same error. */
  lemma {:induction false} WriteColumnErr(w: seq<Weight>, n: nat, c: nat, vals: seq<Weight>, sel: seq<nat>, k: nat, m: nat)
    requires k <= m <= |vals| && WriteColumn(w, n, c, vals, sel, k).Err?
    ensures WriteColumn(w, n, c, vals, sel, m) == WriteColumn(w, n, c, vals, sel, k)
    decreases m
  {
    if k < m {
      WriteColumnErr(w, n, c, vals, sel, k, m - 1);
    }
  }

  /**
   * What `set_influence_weights` carries through its items: the flat weights,
   * the imported names that matched no influence (`unused_influences`), and
   * the partial paths not yet removed from `influences`.
   */
  datatype ImportState = ImportState(weights: seq<Weight>, unused: seq<Name>, remaining: seq<Name>)

  /**
   * One imported item: the first influence whose namespace-free name equals
   * the item's name receives the column and its name is removed once from the
   * remaining partial paths; an item that matches nothing is unused.
   */
  function ImportItem(st: ImportState, n: nat, stripped: seq<Name>, item: (Name, seq<Weight>), sel: seq<nat>): Result<ImportState>
  {
    match IndexOf(stripped, item.0)
    case None => Ok(st.(unused := st.unused + [item.0]))
    case Some(c) =>
      match WriteColumn(st.weights, n, c, item.1, sel, |item.1|)
      case Err(e) => Err(e)
      case Ok(w) => Ok(st.(weights := w, remaining := RemoveFirst(st.remaining, item.0)))
  }

  /** Every item in iteration order; the first write that fails decides the error. */
  function ImportItems(st: ImportState, n: nat, stripped: seq<Name>, items: Items, sel: seq<nat>): Result<ImportState>
    decreases |items|
  {
    if items == [] then Ok(st)
    else
      match ImportItems(st, n, stripped, items[..|items| - 1], sel)
      case Err(e) => Err(e)
      case Ok(st1) => ImportItem(st1, n, stripped, items[|items| - 1], sel)
  }

  /** Once an item has failed, importing further items keeps the same error. */
  lemma {:induction false} ImportItemsErr(st: ImportState, n: nat, stripped: seq<Name>, items: Items, sel: seq<nat>, k: nat)
    requires k <= |items| && ImportItems(st, n, stripped, items[..k], sel).Err?
    ensures ImportItems(st, n, stripped, items, sel) == ImportItems(st, n, stripped, items[..k], sel)
    decreases |items|
  {
    if k < |items| {
      assert items[..|items| - 1][..k] == items[..k];
      ImportItemsErr(st, n, stripped, items[..|items| - 1], sel, k);
    } else {
      assert items[..k] == items;
    }
  }

  /**
   * `set_influence_weights` on a host: with no influences the stride is a
   * division by zero; otherwise every item is imported into the host's
   * current weights, starting with every partial path remaining.
   */
  function SetInfluenceSpec(h: HostMesh, items: Items, sel: seq<nat>): Result<ImportState>
  {
    var n := |h.influences|;
    if n == 0 then Err(ZeroStep)
    else ImportItems(ImportState(h.weights, [], PartialPaths(h.influences)), n, StrippedNames(h.influences), items, sel)
  }

  /** Whether the joint-remapper warning is shown: some item matched nothing and some partial path was never removed. */
  predicate Warned(st: ImportState)
  {
    st.unused != [] && st.remaining != []
  }

  /** The column an influence receives: the item named like it, unless an earlier influence has the same name. */
  function ColumnSource(items: Items, stripped: seq<Name>, j: nat): Option<seq<Weight>>
    requires j < |stripped|
  {
    if IndexOf(stripped, stripped[j]) == Some(j) then Get(items, stripped[j]) else None
  }

  /** One item changes only the cells of the column it matched, in the rows it writes. */
  lemma ImportItemCell(st: ImportState, n: nat, stripped: seq<Name>, item: (Name, seq<Weight>), sel: seq<nat>, v: nat, j: nat)
    requires n == |stripped| && j < n && v * n + j < |st.weights|
    requires ImportItem(st, n, stripped, item, sel).Ok?
    ensures |ImportItem(st, n, stripped, item, sel).value.weights| == |st.weights|
    ensures ImportItem(st, n, stripped, item, sel).value.weights[v * n + j] ==
      if IndexOf(stripped, item.0) == Some(j) && v < |item.1| && Imported(sel, v) then item.1[v] else st.weights[v * n + j]
  {
    match IndexOf(stripped, item.0)
    case None =>
    case Some(c) =>
      WrittenCell(st.weights, n, c, item.1, sel, |item.1|, v, j);
  }

  /** The column an influence receives from a dict with one more item. */
  lemma ColumnSourceAppend(init: Items, last: (Name, seq<Weight>), stripped: seq<Name>, j: nat)
    requires j < |stripped| && IsDict(init + [last])
    ensures ColumnSource(init + [last], stripped, j) ==
      if IndexOf(stripped, last.0) == Some(j) then Some(last.1) else ColumnSource(init, stripped, j)
  {
    var key := stripped[j];
    if IndexOf(stripped, key) == Some(j) {
      GetAppend(init, last, key);
    }
  }

  /** Looking a key up in a dict with one more item. */
  lemma GetAppend(init: Items, last: (Name, seq<Weight>), key: Name)
    requires IsDict(init + [last])
    ensures Get(init + [last], key) == if key == last.0 then Some(last.1) else Get(init, key)
  {
    var items := init + [last];
    var ks := Keys(items);
    KeysAppend(init, last);
    assert ks[..|items| - 1] == Keys(init);
    IndexOfPrefix(ks, key);
    if key in Keys(init) {
      var i :| 0 <= i < |init| && Keys(init)[i] == key;
      assert ks[i] == key && ks[|init|] == last.0;
      assert key != last.0;
      var k := IndexOf(Keys(init), key).value;
      assert items[k] == init[k];
    } else if key == last.0 {
      assert items[|init|] == last;
    }
  }

  /**
   * After importing a dict, the cell of vertex v in influence column j holds
   * the value the dict gives that influence for row v, when the row is
   * imported; every other cell keeps its weight.
   */
  lemma {:induction false} ImportedCell(st: ImportState, n: nat, stripped: seq<Name>, items: Items, sel: seq<nat>, v: nat, j: nat)
    requires n == |stripped| && j < n && v * n + j < |st.weights|
    requires IsDict(items) && ImportItems(st, n, stripped, items, sel).Ok?
    ensures |ImportItems(st, n, stripped, items, sel).value.weights| == |st.weights|
    ensures ImportItems(st, n, stripped, items, sel).value.weights[v * n + j] ==
      match ColumnSource(items, stripped, j)
      case Some(vals) => if v < |vals| && Imported(sel, v) then vals[v] else st.weights[v * n + j]
      case None => st.weights[v * n + j]
    decreases |items|
  {
    if items != [] {
      var init, last := items[..|items| - 1], items[|items| - 1];
      assert IsDict(init) by {
        assert Keys(init) == Keys(items)[..|items| - 1];
      }
      ImportedCell(st, n, stripped, init, sel, v, j);
      var st1 := ImportItems(st, n, stripped, init, sel).value;
      assert items == init + [last];
      ImportItemCell(st1, n, stripped, last, sel, v, j);
      ColumnSourceAppend(init, last, stripped, j);
    }
  }

  /** Importing collects, in iteration order, exactly the item names that match no influence. */
  lemma {:induction false} ImportedUnused(st: ImportState, n: nat, stripped: seq<Name>, items: Items, sel: seq<nat>)
    requires ImportItems(st, n, stripped, items, sel).Ok?
    ensures ImportItems(st, n, stripped, items, sel).value.unused == st.unused + Drop(Keys(items), set x | x in stripped)
    decreases |items|
  {
    if items != [] {
      var init, last := items[..|items| - 1], items[|items| - 1];
      ImportedUnused(st, n, stripped, init, sel);
      KeysAppend(init, last);
      assert items == init + [last];
      assert Keys(items)[..|items| - 1] == Keys(init);
    }
  }

  /** The names matched by some influence: each is removed once from the remaining partial paths. */
  function Matched(items: Items, stripped: seq<Name>): set<Name>
  {
    set k | k in Keys(items) && k in stripped
  }

  /** Removing nothing leaves a list as it is. */
  lemma {:induction false} RemoveFirstOfNone<T>(xs: seq<T>)
    ensures RemoveFirstOfEach(xs, {}) == xs
    decreases |xs|
  {
    if xs != [] {
      RemoveFirstOfNone(xs[1..]);
    }
  }

  /**
   * Importing a dict removes from the remaining partial paths the first
   * occurrence of each imported name that matched an influence, and nothing else.
   */
  lemma {:induction false} ImportedRemaining(st: ImportState, n: nat, stripped: seq<Name>, items: Items, sel: seq<nat>)
    requires IsDict(items) && ImportItems(st, n, stripped, items, sel).Ok?
    ensures ImportItems(st, n, stripped, items, sel).value.remaining == RemoveFirstOfEach(st.remaining, Matched(items, stripped))
    decreases |items|
  {
    if items == [] {
      assert Matched(items, stripped) == {};
      RemoveFirstOfNone(st.remaining);
    } else {
      var init, last := items[..|items| - 1], items[|items| - 1];
      MatchedAppend(items, stripped);
      ImportedRemaining(st, n, stripped, init, sel);
      if last.0 in stripped {
        RemoveFirstOfEachStep(st.remaining, Matched(init, stripped), last.0);
      }
    }
  }

  /** The names a dict matches are those its items before the last match, and the last key when it matches. */
  lemma MatchedAppend(items: Items, stripped: seq<Name>)
    requires IsDict(items) && items != []
    ensures var init, last := items[..|items| - 1], items[|items| - 1];
      IsDict(init) && last.0 !in Matched(init, stripped) &&
      Matched(items, stripped) == if last.0 in stripped then Matched(init, stripped) + {last.0} else Matched(init, stripped)
  {
    var init, last := items[..|items| - 1], items[|items| - 1];
    assert Keys(init) == Keys(items)[..|items| - 1];
    KeysAppend(init, last);
    assert items == init + [last];
    assert Keys(items) == Keys(init) + [last.0];
    assert last.0 !in Keys(init);
  }

  // ---------------------------------------------------------------------------
  // gathering then importing

  /** The `weights` dict gathered from a host: each influence's column under its namespace-free partial path. */
  function Gathered(h: HostMesh): Items
  {
    InfluenceColumns([], h.weights, PartialPaths(h.influences), |h.influences|)
  }

  /** An item a gather stores: some influence's column under its namespace-free name. */
  predicate FromGather(item: (Name, seq<Weight>), w: seq<Weight>, names: seq<Name>, n: nat)
    requires |names| <= n
  {
    exists c :: 0 <= c < |names| && item == (RemoveNamespace(names[c]), Column(w, n, c))
  }

  /** Every item of a gathered dict was there before or is some influence's column under its name. */
  lemma {:induction false} InfluenceColumnsItems(items: Items, w: seq<Weight>, names: seq<Name>, n: nat)
    requires |names| <= n
    ensures forall item :: item in InfluenceColumns(items, w, names, n) ==> item in items || FromGather(item, w, names, n)
    decreases |names|
  {
    if names != [] {
      var m := |names| - 1;
      var init := names[..m];
      InfluenceColumnsItems(items, w, init, n);
      var prev := InfluenceColumns(items, w, init, n);
      var r := InfluenceColumns(items, w, names, n);
      forall item | item in r ensures item in items || FromGather(item, w, names, n) {
        if item in prev {
          if item !in items {
            var c :| 0 <= c < m && item == (RemoveNamespace(init[c]), Column(w, n, c));
            assert init[c] == names[c];
          }
        } else {
          assert item == (RemoveNamespace(names[m]), Column(w, n, m));
        }
      }
    }
  }

  /** The namespace-free form of each name in a list; `StrippedNames` is this over the influences' partial paths. */
  function StrippedNamesOf(names: seq<Name>): (r: seq<Name>)
    ensures |r| == |names| && forall k :: 0 <= k < |names| ==> r[k] == RemoveNamespace(names[k])
  {
    seq(|names|, k requires 0 <= k < |names| => RemoveNamespace(names[k]))
  }

  /** Items of at most |w| / n rows, each matched to a column below n, all write inside the list. */
  lemma {:induction false} ImportItemsOk(st: ImportState, n: nat, stripped: seq<Name>, items: Items, sel: seq<nat>)
    requires n == |stripped|
    requires forall k :: 0 <= k < |items| ==> |items[k].1| * n <= |st.weights|
    ensures ImportItems(st, n, stripped, items, sel).Ok?
    ensures |ImportItems(st, n, stripped, items, sel).value.weights| == |st.weights|
    decreases |items|
  {
    if items != [] {
      var init, last := items[..|items| - 1], items[|items| - 1];
      ImportItemsOk(st, n, stripped, init, sel);
      var st1 := ImportItems(st, n, stripped, init, sel).value;
      ImportItemOk(st1, n, stripped, last, sel);
    }
  }

  /** An item of at most |w| / n rows writes inside the list and keeps its length. */
  lemma ImportItemOk(st: ImportState, n: nat, stripped: seq<Name>, item: (Name, seq<Weight>), sel: seq<nat>)
    requires n == |stripped| && |item.1| * n <= |st.weights|
    ensures ImportItem(st, n, stripped, item, sel).Ok?
    ensures |ImportItem(st, n, stripped, item, sel).value.weights| == |st.weights|
  {
    match IndexOf(stripped, item.0)
    case None =>
    case Some(c) =>
      forall count | 0 <= count < |item.1| && Imported(sel, count) ensures count * n + c < |st.weights| {
        MulMono(count + 1, |item.1|, n);
        assert (count + 1) * n == count * n + n;
      }
      WriteColumnOk(st.weights, n, c, item.1, sel, |item.1|);
  }

  /** Every item of a gathered dict holds a whole column and is named after an influence. */
  lemma GatheredItems(h: HostMesh)
    requires |h.influences| > 0
    ensures forall k :: 0 <= k < |Gathered(h)| ==>
      |Gathered(h)[k].1| * |h.influences| <= |h.weights| && Gathered(h)[k].0 in StrippedNames(h.influences)
  {
    var n := |h.influences|;
    var w := h.weights;
    var names := PartialPaths(h.influences);
    var items := Gathered(h);
    InfluenceColumnsItems([], w, names, n);
    forall k | 0 <= k < |items|
      ensures |items[k].1| * n <= |w| && items[k].0 in StrippedNames(h.influences)
    {
      assert items[k] in items;
      var c :| 0 <= c < |names| && items[k] == (RemoveNamespace(names[c]), Column(w, n, c));
      assert StrippedNames(h.influences)[c] == items[k].0;
      ColumnFits(w, n, c);
    }
  }

  /** A gathered dict, imported back with no vertex selected, writes each cell's own weight back. */
  lemma GatheredCell(h: HostMesh, i: nat, v: nat, j: nat)
    requires |h.influences| > 0 && Distinct(StrippedNames(h.influences))
    requires j < |h.influences| && i == v * |h.influences| + j && i < |h.weights|
    requires IsDict(Gathered(h))
    requires SetInfluenceSpec(h, Gathered(h), []).Ok?
    ensures var got := SetInfluenceSpec(h, Gathered(h), []).value.weights;
      |got| == |h.weights| && got[i] == h.weights[i]
  {
    var n := |h.influences|;
    var w := h.weights;
    var names := PartialPaths(h.influences);
    var stripped := StrippedNames(h.influences);
    ImportedCell(ImportState(w, [], names), n, stripped, Gathered(h), [], v, j);
    IndexOfDistinct(stripped, j);
    assert forall d :: j < d < |names| ==> RemoveNamespace(names[d]) != RemoveNamespace(names[j]) by {
      assert forall d :: 0 <= d < |names| ==> RemoveNamespace(names[d]) == stripped[d];
    }
    InfluenceColumnsAt([], w, names, n, j);
    if v < |w| / n {
      ColumnAt(w, n, j, v);
    }
  }

  /** A gathered dict imports back without error. */
  lemma GatheredImports(h: HostMesh)
    requires |h.influences| > 0
    ensures SetInfluenceSpec(h, Gathered(h), []).Ok?
    ensures |SetInfluenceSpec(h, Gathered(h), []).value.weights| == |h.weights|
  {
    GatheredItems(h);
    ImportItemsOk(ImportState(h.weights, [], PartialPaths(h.influences)), |h.influences|, StrippedNames(h.influences), Gathered(h), []);
  }

  /** Every name of a gathered dict matches an influence, so none is unused. */
  lemma GatheredAllUsed(h: HostMesh)
    requires |h.influences| > 0 && SetInfluenceSpec(h, Gathered(h), []).Ok?
    ensures SetInfluenceSpec(h, Gathered(h), []).value.unused == []
  {
    var stripped := StrippedNames(h.influences);
    var items := Gathered(h);
    GatheredItems(h);
    ImportedUnused(ImportState(h.weights, [], PartialPaths(h.influences)), |h.influences|, stripped, items, []);
    var found := set x | x in stripped;
    assert forall x :: x in Keys(items) ==> x in found;
    DropAll(Keys(items), found);
  }

  /**
   * Importing, with no vertex selected, the dict gathered from a host whose
   * influences have distinct namespace-free names succeeds, leaves every
   * weight as it was and finds every imported name.
   */
  lemma GatherThenImport(h: HostMesh)
    requires |h.influences| > 0 && Distinct(StrippedNames(h.influences))
    ensures SetInfluenceSpec(h, Gathered(h), []).Ok?
    ensures SetInfluenceSpec(h, Gathered(h), []).value.weights == h.weights
    ensures SetInfluenceSpec(h, Gathered(h), []).value.unused == []
  {
    var n := |h.influences|;
    GatheredImports(h);
    GatheredAllUsed(h);
    InfluenceColumnsDict([], h.weights, PartialPaths(h.influences), n);
    var got := SetInfluenceSpec(h, Gathered(h), []).value.weights;
    forall i | 0 <= i < |h.weights| ensures got[i] == h.weights[i] {
      var v, j := RowColumn(i, n);
      GatheredCell(h, i, v, j);
    }
  }

  // ---------------------------------------------------------------------------
  // the `SkinData` class

  /** The `data` dict of one skinCluster, without its attribute values. */
  datatype SkinDict = SkinDict(
    weights: Items,                  // influence name -> column of weights
    blendWeights: seq<Weight>,       // one dual-quaternion blend weight per vertex
    skinCluster: Name,
    shape: Name,
    selectedVertIndexes: seq<nat>)   // the rows an import writes; all when empty

  /** The first influence whose namespace-free partial path is the given name, as the matching loop finds it. */
  method FindInfluence(infs: seq<Influence>, name: Name) returns (c: Option<nat>)
    ensures c == IndexOf(StrippedNames(infs), name)
  {
    var stripped := StrippedNames(infs);
    for k := 0 to |infs|
      invariant forall d :: 0 <= d < k ==> stripped[d] != name
    {
      if RemoveNamespace(infs[k].partialPath) == name {
        return Some(k);
      }
    }
    return None;
  }

  /** One pass of the item loop: the item's influence is looked up and its column written, or its name noted as unused. */
  method ImportOne(a: array<Weight>, infs: seq<Influence>, item: (Name, seq<Weight>), sel: seq<nat>,
                   unused: seq<Name>, influences: seq<Name>) returns (r: Result<(seq<Name>, seq<Name>)>)
    modifies a
    ensures match ImportItem(ImportState(old(a[..]), unused, influences), |infs|, StrippedNames(infs), item, sel)
      case Err(e) => r == Err(e)
      case Ok(st) => r == Ok((st.unused, st.remaining)) && a[..] == st.weights
  {
    var c := FindInfluence(infs, item.0);
    if c.None? {
      return Ok((unused + [item.0], influences));
    }
    var written := WriteImported(a, |infs|, c.value, item.1, sel);
    if written.Err? {
      return Err(written.error);
    }
    return Ok((unused, RemoveFirst(influences, item.0)));
  }

  /** The import loop of `set_influence_weights`: the items imported in order into the weights array, stopping at the first failed write. */
  method ImportAll(a: array<Weight>, infs: seq<Influence>, items: Items, sel: seq<nat>) returns (r: Result<(seq<Name>, seq<Name>)>)
    modifies a
    ensures match ImportItems(ImportState(old(a[..]), [], PartialPaths(infs)), |infs|, StrippedNames(infs), items, sel)
      case Err(e) => r == Err(e)
      case Ok(st) => r == Ok((st.unused, st.remaining)) && a[..] == st.weights
  {
    var n := |infs|;
    ghost var stripped := StrippedNames(infs);
    ghost var st0 := ImportState(a[..], [], PartialPaths(infs));
    var unused: seq<Name> := [];
    var influences := PartialPaths(infs);
    var i := 0;
    while i < |items|
      invariant 0 <= i <= |items|
      invariant ImportItems(st0, n, stripped, items[..i], sel) == Ok(ImportState(a[..], unused, influences))
    {
      ImportItemsStep(st0, n, stripped, items, sel, i, ImportState(a[..], unused, influences));
      var one := ImportOne(a, infs, items[i], sel, unused, influences);
      if one.Err? {
        ImportItemsErr(st0, n, stripped, items, sel, i + 1);
        return Err(one.error);
      }
      unused, influences := one.value.0, one.value.1;
      i := i + 1;
    }
    assert items[..i] == items;
    return Ok((unused, influences));
  }

  /** Importing one more item continues from the state the earlier items left. */
  lemma ImportItemsStep(st: ImportState, n: nat, stripped: seq<Name>, items: Items, sel: seq<nat>, i: nat, mid: ImportState)
    requires i < |items| && ImportItems(st, n, stripped, items[..i], sel) == Ok(mid)
    ensures ImportItems(st, n, stripped, items[..i + 1], sel) == ImportItem(mid, n, stripped, items[i], sel)
  {
    assert items[..i + 1][..i] == items[..i];
  }

  /** The innermost loop: one imported column written into the weights array, row by row. */
  method WriteImported(a: array<Weight>, n: nat, c: nat, vals: seq<Weight>, sel: seq<nat>) returns (r: Result<()>)
    modifies a
    ensures match WriteColumn(old(a[..]), n, c, vals, sel, |vals|)
      case Err(e) => r == Err(e)
      case Ok(w) => r == Ok(()) && a[..] == w
  {
    ghost var w0 := a[..];
    for count := 0 to |vals|
      invariant WriteColumn(w0, n, c, vals, sel, count) == Ok(a[..])
    {
      if sel == [] || count in sel {
        if count * n + c >= a.Length {
          WriteColumnErr(w0, n, c, vals, sel, count + 1, |vals|);
          return Err(MissingVertex(count));
        }
        a[count * n + c] := vals[count];
      }
    }
    return Ok(());
  }

  /** `SkinData`: one skinCluster, its `data` dict, and the host state it reads and writes. */
  class SkinData {
    var skinCluster: Name
    var shape: Name
    var data: SkinDict
    /** The host scene as the host API reports it for the skinCluster. */
    var host: HostMesh

    /** `__init__`: an empty dict naming the skinCluster and its shape. */
    constructor (name: Name, shapeName: Name, scene: HostMesh)
      ensures skinCluster == name && shape == shapeName && host == scene
      ensures data == SkinDict([], [], name, shapeName, [])
    {
      skinCluster, shape, host := name, shapeName, scene;
      data := SkinDict([], [], name, shapeName, []);
    }

    /**
     * `get_influence_weights`: the weight list is cut into rows of one weight
     * per influence, and each influence's column is stored in the dict under
     * its namespace-free partial path; with no influence the stride is a
     * division by zero.
     */
    method GetInfluenceWeights() returns (r: Result<()>)
      modifies this`data
      ensures |host.influences| == 0 ==> r == Err(ZeroStep) && data == old(data)
      ensures |host.influences| > 0 ==>
        r == Ok(()) &&
        data == old(data).(weights := InfluenceColumns(old(data.weights), host.weights, PartialPaths(host.influences), |host.influences|))
    {
      var n := |host.influences|;
      if n == 0 {
        return Err(ZeroStep);
      }
      var w := host.weights;
      var names := PartialPaths(host.influences);
      for count := 0 to n
        invariant data == old(data).(weights := InfluenceColumns(old(data.weights), w, names[..count], n))
      {
        InfluenceColumnsStep(old(data.weights), w, names, n, count);
        data := data.(weights := Assign(data.weights, RemoveNamespace(names[count]), Column(w, n, count)));
      }
      assert names[..n] == names;
      return Ok(());
    }

    /** `gather_data`: the influence columns and the blend weights, read into the dict and returned. */
    method GatherData() returns (r: Result<SkinDict>)
      modifies this`data
      ensures |host.influences| == 0 ==> r == Err(ZeroStep) && data == old(data)
      ensures |host.influences| > 0 ==>
        r == Ok(data) &&
        data == old(data).(weights := InfluenceColumns(old(data.weights), host.weights, PartialPaths(host.influences), |host.influences|),
                           blendWeights := host.blendWeights)
    {
      var got := GetInfluenceWeights();
      if got.Err? {
        return Err(got.error);
      }
      data := data.(blendWeights := host.blendWeights);
      return Ok(data);
    }

    /**
     * `set_influence_weights`: every item of the dict is written into a copy
     * of the host's weights, column by column, and the result replaces the
     * host's weights; the answer says whether the joint-remapper warning was
     * shown. A write that fails leaves the host as it was.
     */
    method SetInfluenceWeights() returns (r: Result<bool>)
      modifies this`host
      ensures match SetInfluenceSpec(old(host), data.weights, data.selectedVertIndexes)
        case Err(e) => r == Err(e) && host == old(host)
        case Ok(st) => r == Ok(Warned(st)) && host == old(host).(weights := st.weights)
    {
      var n := |host.influences|;
      if n == 0 {
        return Err(ZeroStep);
      }
      var w0 := host.weights;
      var a := new Weight[|w0|](i requires 0 <= i < |w0| => w0[i]);
      assert a[..] == w0;
      var all := ImportAll(a, host.influences, data.weights, data.selectedVertIndexes);
      if all.Err? {
        return Err(all.error);
      }
      var (unused, influences) := all.value;
      host := host.(weights := a[..]);
      return Ok(unused != [] && influences != []);
    }

    /**
     * `set_data`: the dict is taken over, its influence columns written and
     * then its blend weights set; a failed column write stops before the
     * blend weights.
     */
    method SetData(d: SkinDict) returns (r: Result<bool>)
      modifies this`data, this`host
      ensures data == d
      ensures match SetInfluenceSpec(old(host), d.weights, d.selectedVertIndexes)
        case Err(e) => r == Err(e) && host == old(host)
        case Ok(st) => r == Ok(Warned(st)) && host == old(host).(weights := st.weights, blendWeights := d.blendWeights)
    {
      data := d;
      r := SetInfluenceWeights();
      if r.Ok? {
        host := host.(blendWeights := d.blendWeights);
      }
    }
  }

  // ---------------------------------------------------------------------------
  // `_parallel_skin_clusters`: can the import reuse the current skinCluster?

  /** The keys of a gather are the keys already there and the namespace-free names of the influences. */
  lemma {:induction false} InfluenceColumnsKeys(items: Items, w: seq<Weight>, names: seq<Name>, n: nat, key: Name)
    requires |names| <= n
    ensures key in Keys(InfluenceColumns(items, w, names, n)) <==> key in Keys(items) || key in StrippedNamesOf(names)
    decreases |names|
  {
    if names != [] {
      var m := |names| - 1;
      InfluenceColumnsKeys(items, w, names[..m], n, key);
      var prev := InfluenceColumns(items, w, names[..m], n);
      var r := InfluenceColumns(items, w, names, n);
      var nk := RemoveNamespace(names[m]);
      assert r == Assign(prev, nk, Column(w, n, m));
      assert (key in Keys(r)) == Get(r, key).Some?;
      assert (key in Keys(prev)) == Get(prev, key).Some?;
      if key != nk {
        assert Get(r, key) == Get(prev, key);
      }
      StrippedNamesOfAppend(names, key);
    }
  }

  /** A key is among the stripped names exactly when it is among those of all but the last, or it is the last one's. */
  lemma StrippedNamesOfAppend(names: seq<Name>, key: Name)
    requires |names| > 0
    ensures key in StrippedNamesOf(names) <==>
      key in StrippedNamesOf(names[..|names| - 1]) || key == RemoveNamespace(names[|names| - 1])
  {
    var m := |names| - 1;
    assert StrippedNamesOf(names) == StrippedNamesOf(names[..m]) + [RemoveNamespace(names[m])];
  }

  /** The keys of the dict gathered from a host are exactly the namespace-free names of its influences. */
  lemma GatheredKeys(h: HostMesh, key: Name)
    ensures key in Keys(Gathered(h)) <==> key in StrippedNames(h.influences)
  {
    InfluenceColumnsKeys([], h.weights, PartialPaths(h.influences), |h.influences|, key);
    assert StrippedNamesOf(PartialPaths(h.influences)) == StrippedNames(h.influences);
  }

  /** The names `_parallel_skin_clusters` reports missing: the imported ones the current dict lacks, in import order. */
  method MissingInfluences(current: seq<Name>, incoming: seq<Name>) returns (missing: seq<Name>)
    ensures missing == Drop(incoming, set k | k in current)
  {
    missing := [];
    for i := 0 to |incoming|
      invariant missing == Drop(incoming[..i], set k | k in current)
    {
      assert incoming[..i + 1][..i] == incoming[..i];
      if incoming[i] !in current {
        missing := missing + [incoming[i]];
      }
    }
    assert incoming[..|incoming|] == incoming;
  }

  /** Nothing is missing exactly when every imported name is a current one. */
  lemma NothingMissing(current: seq<Name>, incoming: seq<Name>)
    ensures Drop(incoming, set k | k in current) == [] <==> forall k :: k in incoming ==> k in current
  {
    var s := set k | k in current;
    if forall k :: k in incoming ==> k in current {
      DropAll(incoming, s);
    } else {
      var k :| k in incoming && k !in current;
      var i :| 0 <= i < |incoming| && incoming[i] == k;
      assert k in Drop(incoming, s);
    }
  }

  /**
   * `_parallel_skin_clusters`: a fresh `SkinData` gathers the current
   * cluster's dict, and the imported names that are not among its keys are
   * returned, in import order; the gather fails on a cluster without influences.
   */
  method ParallelSkinClusters(name: Name, shapeName: Name, scene: HostMesh, d: SkinDict) returns (sd: SkinData, r: Result<seq<Name>>)
    ensures fresh(sd) && sd.host == scene
    ensures |scene.influences| == 0 ==> r == Err(ZeroStep)
    ensures |scene.influences| > 0 ==> r == Ok(Drop(Keys(d.weights), set k | k in Keys(Gathered(scene))))
  {
    sd := new SkinData(name, shapeName, scene);
    var got := sd.GatherData();
    if got.Err? {
      return sd, Err(got.error);
    }
    var missing := MissingInfluences(Keys(got.value.weights), Keys(d.weights));
    return sd, Ok(missing);
  }

  /**
   * An import reuses the current skinCluster exactly when every name in the
   * imported dict is the namespace-free name of one of its influences.
   */
  lemma ReusedExactly(h: HostMesh, d: SkinDict)
    ensures Drop(Keys(d.weights), set k | k in Keys(Gathered(h))) == [] <==>
      forall k :: k in Keys(d.weights) ==> k in StrippedNames(h.influences)
  {
    NothingMissing(Keys(Gathered(h)), Keys(d.weights));
    forall k ensures k in Keys(Gathered(h)) <==> k in StrippedNames(h.influences) {
      GatheredKeys(h, k);
    }
  }

  // ---------------------------------------------------------------------------
  // `_create_new_skin_cluster`

  /** `set([remove_namespace(j) for j in cmds.ls(type="joint")])`. */
  function SceneNames(sceneJoints: seq<Name>): set<Name>
  {
    set j | j in sceneJoints :: RemoveNamespace(j)
  }

  /**
   * The joints a new skinCluster is made with: the imported names found
   * among the scene's joints, in order, or None (nothing created) when some
   * name is not found and the scene has no joints at all.
   */
  function NewClusterJoints(joints: seq<Name>, sceneJoints: seq<Name>): Option<seq<Name>>
  {
    var scene := SceneNames(sceneJoints);
    if Drop(joints, scene) != [] && scene == {} then None else Some(Keep(joints, scene))
  }

  /** Creation is abandoned exactly when there are names to import and no joint in the scene. */
  lemma NewClusterAbandoned(joints: seq<Name>, sceneJoints: seq<Name>)
    ensures NewClusterJoints(joints, sceneJoints).None? <==> |joints| > 0 && |sceneJoints| == 0
  {
    var scene := SceneNames(sceneJoints);
    if |sceneJoints| > 0 {
      assert RemoveNamespace(sceneJoints[0]) in scene;
    }
    if |joints| > 0 && scene == {} {
      assert joints[0] in Drop(joints, scene);
    }
  }

  /** The joints used and the joints left out partition the imported names, and every joint used is in the scene. */
  lemma NewClusterPartition(joints: seq<Name>, sceneJoints: seq<Name>)
    requires NewClusterJoints(joints, sceneJoints).Some?
    ensures multiset(NewClusterJoints(joints, sceneJoints).value) + multiset(Drop(joints, SceneNames(sceneJoints))) == multiset(joints)
    ensures forall j :: j in NewClusterJoints(joints, sceneJoints).value ==> j in SceneNames(sceneJoints)
  {
    KeepDropPartition(joints, SceneNames(sceneJoints));
  }

  /** `_create_new_skin_cluster`: the joints the new skinCluster is made with, or None when none is made. */
  method CreateNewSkinCluster(joints: seq<Name>, sceneJoints: seq<Name>) returns (r: Option<seq<Name>>)
    ensures r == NewClusterJoints(joints, sceneJoints)
  {
    var scene := SceneNames(sceneJoints);
    var existing, unused := Partition(joints, scene);
    if unused != [] && scene == {} {
      return None;
    }
    return Some(existing);
  }

  // ---------------------------------------------------------------------------
  // `_import_skin_weights`: what happens to one imported dict

  /** The fate of one imported dict. */
  datatype ImportOutcome =
    | NotInScene                         // the geometry does not exist: warned and skipped
    | SetInPlace                         // every name matched the current skinCluster: `set_data` on it
    | Recreated(deleted: bool, joints: seq<Name>) // (any current cluster deleted) a new one made with these joints
    | Abandoned(deleted: bool)           // (any current cluster deleted) no joint in the scene: nothing made

  /**
   * One iteration of `_import_skin_weights`: `current` is the host state of
   * the geometry's first skinCluster, if it has one; gathering from a
   * cluster without influences divides by zero.
   */
  function ImportDecision(inScene: bool, current: Option<HostMesh>, d: SkinDict, sceneJoints: seq<Name>): Result<ImportOutcome>
  {
    if !inScene then Ok(NotInScene)
    else if current.Some? && |current.value.influences| == 0 then Err(ZeroStep)
    else if current.Some? && Drop(Keys(d.weights), set k | k in Keys(Gathered(current.value))) == [] then Ok(SetInPlace)
    else match NewClusterJoints(Keys(d.weights), sceneJoints)
      case None => Ok(Abandoned(current.Some?))
      case Some(joints) => Ok(Recreated(current.Some?, joints))
  }

  /**
   * The data is set in place exactly when the geometry exists and has a
   * skinCluster with influences whose namespace-free names cover every
   * imported name; a cluster that does not cover them is always deleted.
   */
  lemma ImportInPlace(inScene: bool, current: Option<HostMesh>, d: SkinDict, sceneJoints: seq<Name>)
    ensures ImportDecision(inScene, current, d, sceneJoints) == Ok(SetInPlace) <==>
      inScene && current.Some? && |current.value.influences| > 0 &&
      forall k :: k in Keys(d.weights) ==> k in StrippedNames(current.value.influences)
    ensures (inScene && current.Some? && ImportDecision(inScene, current, d, sceneJoints).Ok? &&
             ImportDecision(inScene, current, d, sceneJoints) != Ok(SetInPlace)) ==>
      ImportDecision(inScene, current, d, sceneJoints).value.deleted
  {
    if current.Some? {
      ReusedExactly(current.value, d);
    }
  }

  // ---------------------------------------------------------------------------
  // `_vert_check`

  /**
   * The geometry an import loop is on after seeing the given shapes: the
   * geometry it was given, else the shape of the first dict, which then
   * stays for every later dict.
   */
  function Sticky(geometry: Name, shapes: seq<Name>): Name
    decreases |shapes|
  {
    if shapes == [] then geometry
    else
      var before := Sticky(geometry, shapes[..|shapes| - 1]);
      if before == "" then shapes[|shapes| - 1] else before
  }

  /** Once the loop has a geometry it keeps it: a given geometry is used for every dict. */
  lemma {:induction false} StickyKeeps(geometry: Name, shapes: seq<Name>, more: seq<Name>)
    requires Sticky(geometry, shapes) != ""
    ensures Sticky(geometry, shapes + more) == Sticky(geometry, shapes)
    decreases |more|
  {
    if more == [] {
      assert shapes + more == shapes;
    } else {
      var m := |more| - 1;
      StickyKeeps(geometry, shapes, more[..m]);
      assert (shapes + more)[..|shapes + more| - 1] == shapes + more[..m];
    }
  }

  /** A geometry given to the loop is the one every dict is checked against. */
  lemma StickyGiven(geometry: Name, shapes: seq<Name>)
    requires geometry != ""
    ensures Sticky(geometry, shapes) == geometry
  {
    StickyKeeps(geometry, [], shapes);
    assert [] + shapes == shapes;
  }

  function Shapes(data: seq<SkinDict>): (r: seq<Name>)
    ensures |r| == |data| && forall i :: 0 <= i < |data| ==> r[i] == data[i].shape
  {
    seq(|data|, i requires 0 <= i < |data| => data[i].shape)
  }

  /** The geometry dict i is checked against. */
  function Target(data: seq<SkinDict>, geometry: Name, i: nat): Name
    requires i < |data|
  {
    Sticky(geometry, Shapes(data)[..i + 1])
  }

  /** Dict i fits its geometry when the geometry has as many vertices as the dict has blend weights. */
  predicate Fits(data: seq<SkinDict>, geometry: Name, vertCount: Name -> nat, i: nat)
    requires i < |data|
  {
    vertCount(Target(data, geometry, i)) == |data[i].blendWeights|
  }

  /**
   * `_vert_check`: every dict's blend-weight count against its geometry's
   * vertex count (`polyEvaluate`, here `vertCount`); the first mismatch is
   * reported with the geometry's name, otherwise the check passes.
   */
  method VertCheck(data: seq<SkinDict>, geometry: Name, vertCount: Name -> nat) returns (r: Result<()>)
    ensures r.Ok? <==> forall i :: 0 <= i < |data| ==> Fits(data, geometry, vertCount, i)
    ensures r.Err? ==> exists i :: (0 <= i < |data| && !Fits(data, geometry, vertCount, i) &&
      r.error == VertCountMismatch(Target(data, geometry, i)) &&
      forall k :: 0 <= k < i ==> Fits(data, geometry, vertCount, k))
  {
    ghost var shapes := Shapes(data);
    var g := geometry;
    for i := 0 to |data|
      invariant g == Sticky(geometry, shapes[..i])
      invariant forall k :: 0 <= k < i ==> Fits(data, geometry, vertCount, k)
    {
      assert shapes[..i + 1][..i] == shapes[..i];
      if g == "" {
        g := data[i].shape;
      }
      assert g == Target(data, geometry, i);
      if vertCount(g) != |data[i].blendWeights| {
        assert !Fits(data, geometry, vertCount, i);
        return Err(VertCountMismatch(g));
      }
    }
    return Ok(());
  }

  // ---------------------------------------------------------------------------
  // `_parse_for_indexes`

  /** The run of digits a text starts with. */
  function LeadingDigits(s: string): (r: string)
    ensures AllDigits(r) && r <= s
    ensures |r| < |s| ==> !IsDigit(s[|r|])
    decreases |s|
  {
    if s == [] || !IsDigit(s[0]) then [] else [s[0]] + LeadingDigits(s[1..])
  }

  /** `re.search(r'\d+', s).group()`: the first run of digits, None when the text holds no digit. */
  function FirstDigitRun(s: string): (r: Option<string>)
    ensures r.None? <==> forall i :: 0 <= i < |s| ==> !IsDigit(s[i])
    ensures r.Some? ==> r.value != [] && AllDigits(r.value)
    decreases |s|
  {
    if s == [] then None
    else if IsDigit(s[0]) then Some(LeadingDigits(s))
    else
      var rest := FirstDigitRun(s[1..]);
      assert forall i :: 1 <= i < |s| ==> s[i] == s[1..][i - 1];
      rest
  }

  /** The index read from one vertex string: the first digit run after its last `.`; no digit there is an error. */
  function VertIndex(s: string): Result<nat>
  {
    match FirstDigitRun(LastPiece(s, '.'))
    case None => Err(Malformed(s))
    case Some(run) => Ok(DigitsValue(run))
  }

  function VertIndexReads(strings: seq<string>): (r: seq<Result<nat>>)
    ensures |r| == |strings| && forall i :: 0 <= i < |strings| ==> r[i] == VertIndex(strings[i])
  {
    seq(|strings|, i requires 0 <= i < |strings| => VertIndex(strings[i]))
  }

  /** `_parse_for_indexes`: one index per string, in order; the first string without one stops it. */
  method ParseForIndexes(strings: seq<string>) returns (r: Result<seq<nat>>)
    ensures r == Collect(VertIndexReads(strings))
  {
    ghost var all := VertIndexReads(strings);
    var indexes: seq<nat> := [];
    for i := 0 to |strings|
      invariant Collect(all[..i]) == Ok(indexes)
    {
      var tail := LastPiece(strings[i], '.');
      var run := FirstDigitRun(tail);
      if run.None? {
        CollectFail(all, i);
        return Err(Malformed(strings[i]));
      }
      assert all[i] == Ok(DigitsValue(run.value));
      CollectStep(all, i, indexes);
      indexes := indexes + [DigitsValue(run.value)];
    }
    assert all[..|strings|] == all;
    return Ok(indexes);
  }

  /** Digits followed by text that does not start with a digit lead with exactly those digits. */
  lemma {:induction false} LeadingDigitsOf(digits: string, t: string)
    requires AllDigits(digits)
    requires t == [] || !IsDigit(t[0])
    ensures LeadingDigits(digits + t) == digits
    decreases |digits|
  {
    if digits != [] {
      LeadingDigitsOf(digits[1..], t);
      assert (digits + t)[1..] == digits[1..] + t;
    }
  }

  /** Parsing the vertex string of vertex v gives v back, whatever the mesh is called. */
  lemma VertIndexOfVertString(mesh: Name, v: nat)
    ensures VertIndex(VertString(mesh, v)) == Ok(v)
  {
    var digits := ShowNat(v);
    var tail := "vtx[" + digits + "]";
    assert VertString(mesh, v) == mesh + ['.'] + tail;
    assert '.' !in tail by {
      assert forall i :: 0 <= i < |digits| ==> IsDigit(digits[i]);
    }
    LastPieceAfter(mesh, '.', tail);
    LeadingDigitsOf(digits, "]");
    assert tail[4..] == digits + "]";
    assert FirstDigitRun(tail) == FirstDigitRun(tail[1..]);
    assert FirstDigitRun(tail[1..]) == FirstDigitRun(tail[2..]) by { assert tail[1..][1..] == tail[2..]; }
    assert FirstDigitRun(tail[2..]) == FirstDigitRun(tail[3..]) by { assert tail[2..][1..] == tail[3..]; }
    assert FirstDigitRun(tail[3..]) == FirstDigitRun(tail[4..]) by { assert tail[3..][1..] == tail[4..]; }
    ParseShowNat(v);
  }

  /** Parsing the strings of a list of vertices gives back the list. */
  lemma ParseVertStrings(mesh: Name, vs: seq<nat>)
    ensures Collect(VertIndexReads(seq(|vs|, i requires 0 <= i < |vs| => VertString(mesh, vs[i])))) == Ok(vs)
  {
    var strings := seq(|vs|, i requires 0 <= i < |vs| => VertString(mesh, vs[i]));
    forall i | 0 <= i < |vs| ensures VertIndexReads(strings)[i] == Ok(vs[i]) {
      VertIndexOfVertString(mesh, vs[i]);
    }
    var r := Collect(VertIndexReads(strings));
    assert r.Ok?;
    assert r.value == vs;
  }

  // ---------------------------------------------------------------------------
  // `_bake_vertex_blind_data`

  /**
   * The entry baked for one existing weight plug: the plug's logical index is
   * looked up with `inf_ids.index`, which finds the first influence with that
   * logical index and raises when there is none.
   */
  function BakeEntry(p: WeightPair, bones: seq<Influence>): Result<Entry>
  {
    match IndexOf(LogicalIndexes(bones), p.influence)
    case None => Err(MissingColumn(p.influence))
    case Some(k) => Ok(Entry(bones[k].partialPath, p.value))
  }

  /** The entries of a vertex's plugs, in plug order; the first plug that cannot be named decides the error. */
  function BakeEntries(plugs: seq<WeightPair>, bones: seq<Influence>): (r: Result<seq<Entry>>)
    ensures r.Ok? ==> |r.value| == |plugs| && forall k :: 0 <= k < |plugs| ==> BakeEntry(plugs[k], bones) == Ok(r.value[k])
    decreases |plugs|
  {
    if plugs == [] then Ok([])
    else
      match BakeEntries(plugs[..|plugs| - 1], bones)
      case Err(e) => Err(e)
      case Ok(es) =>
        match BakeEntry(plugs[|plugs| - 1], bones)
        case Err(e) => Err(e)
        case Ok(x) => Ok(es + [x])
  }

  /** The first plug that cannot be named decides the error. */
  lemma {:induction false} BakeEntriesFail(plugs: seq<WeightPair>, k: nat, bones: seq<Influence>)
    requires k < |plugs| && BakeEntry(plugs[k], bones).Err? && BakeEntries(plugs[..k], bones).Ok?
    ensures BakeEntries(plugs, bones) == Err(BakeEntry(plugs[k], bones).error)
    decreases |plugs|
  {
    if |plugs| - 1 > k {
      var init := plugs[..|plugs| - 1];
      assert init[..k] == plugs[..k];
      BakeEntriesFail(init, k, bones);
    } else {
      assert plugs[..|plugs| - 1] == plugs[..k];
    }
  }

  /** The string baked for one vertex: `name:weight|` for each existing plug, in plug order. */
  function BakeText(plugs: seq<WeightPair>, bones: seq<Influence>): Result<string>
  {
    match BakeEntries(plugs, bones)
    case Err(e) => Err(e)
    case Ok(es) => Ok(Encode(es))
  }

  function VertexTexts(h: HostMesh): (r: seq<Result<string>>)
    ensures |r| == |h.points| && forall v :: 0 <= v < |h.points| ==> r[v] == BakeText(Skinning.PlugsOf(h, v), h.influences)
  {
    seq(|h.points|, v requires 0 <= v => BakeText(Skinning.PlugsOf(h, v), h.influences))
  }

  /** The host after `_bake_vertex_blind_data`: every vertex's string stored under the type id, registered if new. */
  function BakeSpec(h: HostMesh): Result<HostMesh>
  {
    match Collect(VertexTexts(h))
    case Err(e) => Err(e)
    case Ok(texts) => Ok(Skinning.Registered(h, BLIND_DATA_ID, |h.points|, texts))
  }

  /** One vertex's string, built up piece by piece. */
  method BakeVertexText(plugs: seq<WeightPair>, bones: seq<Influence>) returns (r: Result<string>)
    ensures r == BakeText(plugs, bones)
  {
    ghost var es: seq<Entry> := [];
    var infIds := LogicalIndexes(bones);
    var text := "";
    for j := 0 to |plugs|
      invariant BakeEntries(plugs[..j], bones) == Ok(es) && text == Encode(es)
    {
      assert plugs[..j + 1][..j] == plugs[..j];
      var k := IndexOf(infIds, plugs[j].influence);
      if k.None? {
        BakeEntriesFail(plugs, j, bones);
        return Err(MissingColumn(plugs[j].influence));
      }
      var e := Entry(bones[k.value].partialPath, plugs[j].value);
      EncodeAppend(es, e);
      es := es + [e];
      text := text + Piece(e) + "|";
    }
    assert plugs[..|plugs|] == plugs;
    return Ok(text);
  }

  /** `db_values`: the string of every vertex, in vertex order. */
  method BakeVertexTexts(h: HostMesh) returns (r: Result<seq<string>>)
    ensures r == Collect(VertexTexts(h))
  {
    ghost var all := VertexTexts(h);
    var n := |h.points|;
    var texts: seq<string> := [];
    for v := 0 to n
      invariant Collect(all[..v]) == Ok(texts)
    {
      var t := BakeVertexText(Skinning.PlugsOf(h, v), h.influences);
      assert all[v] == t;
      if t.Err? {
        CollectFail(all, v);
        return Err(t.error);
      }
      CollectStep(all, v, texts);
      texts := texts + [t.value];
    }
    assert all[..n] == all;
    return Ok(texts);
  }

  /** `_bake_vertex_blind_data`: the strings of all vertices, then the type registered when new, then the strings stored. */
  method BakeVertexBlindData(h: HostMesh) returns (r: Result<HostMesh>)
    ensures r == BakeSpec(h)
  {
    var texts := BakeVertexTexts(h);
    if texts.Err? {
      return Err(texts.error);
    }
    var types := h.blindTypes;
    if BLIND_DATA_ID !in types {
      types := types + {BLIND_DATA_ID};
    } else {
      assert types + {BLIND_DATA_ID} == types;
    }
    var store := Skinning.StoreOf(h, BLIND_DATA_ID);
    return Ok(h.(blindTypes := types, blindData := h.blindData[BLIND_DATA_ID := WriteStrings(store, Range(|h.points|), texts.value)]));
  }

  /**
   * A baked vertex string reads back, piece by piece, as the plugs in order:
   * each named by the first influence with the plug's logical index, with
   * the plug's weight.
   */
  lemma BakedTextParses(plugs: seq<WeightPair>, bones: seq<Influence>)
    requires BakeText(plugs, bones).Ok?
    requires forall k :: 0 <= k < |bones| ==> Bakeable(bones[k].partialPath)
    ensures ParseNonEmpty(BakeText(plugs, bones).value).Ok?
    ensures var es := ParseNonEmpty(BakeText(plugs, bones).value).value;
      |es| == |plugs| && forall k :: 0 <= k < |plugs| ==>
        IndexOf(LogicalIndexes(bones), plugs[k].influence).Some? &&
        es[k] == Entry(bones[IndexOf(LogicalIndexes(bones), plugs[k].influence).value].partialPath, plugs[k].value)
  {
    var es := BakeEntries(plugs, bones).value;
    forall k | 0 <= k < |es| ensures Bakeable(es[k].name) {
      assert BakeEntry(plugs[k], bones) == Ok(es[k]);
    }
    ParseEncode(es);
  }

  /** After a bake the type is registered and vertex v holds the string baked for it. */
  lemma BakeStores(h: HostMesh, v: nat)
    requires BakeSpec(h).Ok? && v < |h.points|
    ensures BLIND_DATA_ID in BakeSpec(h).value.blindTypes
    ensures v in Skinning.StoreOf(BakeSpec(h).value, BLIND_DATA_ID)
    ensures BakeText(Skinning.PlugsOf(h, v), h.influences) == Ok(Skinning.StoreOf(BakeSpec(h).value, BLIND_DATA_ID)[v])
  {
    var texts := Collect(VertexTexts(h)).value;
    WriteStringsRange(Skinning.StoreOf(h, BLIND_DATA_ID), texts, v);
  }

  /** Baking a second time changes nothing: the type is already registered and the same strings are written again. */
  lemma BakeIdempotent(h: HostMesh)
    requires BakeSpec(h).Ok?
    ensures BakeSpec(BakeSpec(h).value) == BakeSpec(h)
  {
    var n := |h.points|;
    var texts := Collect(VertexTexts(h)).value;
    var store := Skinning.StoreOf(h, BLIND_DATA_ID);
    var written := WriteStrings(store, Range(n), texts);
    var h2 := BakeSpec(h).value;
    assert h2 == h.(blindTypes := h.blindTypes + {BLIND_DATA_ID}, blindData := h.blindData[BLIND_DATA_ID := written]);
    SameTexts(h, h2);
    assert Skinning.StoreOf(h2, BLIND_DATA_ID) == written;
    WriteStringsOverwrite(store, Range(n), texts, texts);
    assert h2.blindTypes + {BLIND_DATA_ID} == h2.blindTypes;
    assert h2.blindData[BLIND_DATA_ID := written] == h2.blindData;
  }

  /** The strings a bake writes depend only on the plugs, the influences and the vertex count. */
  lemma SameTexts(h: HostMesh, h2: HostMesh)
    requires h2.plugEntries == h.plugEntries && h2.influences == h.influences && |h2.points| == |h.points|
    ensures VertexTexts(h2) == VertexTexts(h)
  {
    forall v | 0 <= v < |h.points| ensures VertexTexts(h2)[v] == VertexTexts(h)[v] {
      assert Skinning.PlugsOf(h2, v) == Skinning.PlugsOf(h, v);
    }
  }

  // ---------------------------------------------------------------------------
  // `_unbake_vertex_blind_data`

  /** One weight write of an unbake: the joint id read from a piece, the flat position written and the weight. */
  datatype Write = Write(joint: nat, pos: nat, value: Weight)

  /** Every write lands inside a weight array of the given size. */
  predicate Inside(ws: seq<Write>, size: nat)
  {
    forall k :: 0 <= k < |ws| ==> ws[k].pos < size
  }

  /**
   * One `name:weight` piece of the string of vertex `vert`: the weight is
   * parsed, the name looked up among the new skinCluster's short influence
   * names, and the weight goes to `vert * width + joint`, which must be
   * inside the weight array.
   */
  function PieceWrite(piece: string, ids: map<Name, nat>, vert: nat, width: nat, size: nat): (r: Result<Write>)
    ensures r.Ok? ==> r.value.pos == vert * width + r.value.joint && r.value.pos < size
  {
    match Skinning.ReadPiece(piece, ids)
    case Err(e) => Err(e)
    case Ok(p) =>
      if vert * width + p.influence < size then Ok(Write(p.influence, vert * width + p.influence, p.value))
      else Err(MissingVertex(vert))
  }

  function PieceWrites(pieces: seq<string>, ids: map<Name, nat>, vert: nat, width: nat, size: nat): (r: seq<Result<Write>>)
    ensures |r| == |pieces| && forall k :: 0 <= k < |pieces| ==> r[k] == PieceWrite(pieces[k], ids, vert, width, size)
  {
    seq(|pieces|, k requires 0 <= k < |pieces| => PieceWrite(pieces[k], ids, vert, width, size))
  }

  /** The writes of one vertex string: its non-empty `|`-separated pieces, in order. */
  function VertexWrites(text: string, ids: map<Name, nat>, vert: nat, width: nat, size: nat): (r: Result<seq<Write>>)
    ensures r.Ok? ==> Inside(r.value, size)
  {
    var rs := PieceWrites(NonEmpty(Split(text, '|')), ids, vert, width, size);
    var r := Collect(rs);
    assert r.Ok? ==> forall k :: 0 <= k < |r.value| ==> rs[k] == Ok(r.value[k]);
    r
  }

  /** The writes of every stored string, vertex after vertex; the first that fails decides the error. */
  function AllWrites(vertIds: seq<nat>, texts: seq<string>, ids: map<Name, nat>, width: nat, size: nat): (r: Result<seq<Write>>)
    requires |vertIds| == |texts|
    ensures r.Ok? ==> Inside(r.value, size)
    decreases |vertIds|
  {
    if vertIds == [] then Ok([])
    else
      var m := |vertIds| - 1;
      match AllWrites(vertIds[..m], texts[..m], ids, width, size)
      case Err(e) => Err(e)
      case Ok(ws) =>
        match VertexWrites(texts[m], ids, vertIds[m], width, size)
        case Err(e) => Err(e)
        case Ok(vs) =>
          assert forall k :: |ws| <= k < |ws + vs| ==> (ws + vs)[k] == vs[k - |ws|];
          Ok(ws + vs)
  }

  /** The first vertex whose string fails decides the error. */
  lemma {:induction false} AllWritesErr(vertIds: seq<nat>, texts: seq<string>, ids: map<Name, nat>, width: nat, size: nat, x: nat)
    requires |vertIds| == |texts| && x < |vertIds|
    requires AllWrites(vertIds[..x], texts[..x], ids, width, size).Ok?
    requires VertexWrites(texts[x], ids, vertIds[x], width, size).Err?
    ensures AllWrites(vertIds, texts, ids, width, size) == Err(VertexWrites(texts[x], ids, vertIds[x], width, size).error)
    decreases |vertIds|
  {
    var m := |vertIds| - 1;
    if m > x {
      assert vertIds[..m][..x] == vertIds[..x] && texts[..m][..x] == texts[..x];
      AllWritesErr(vertIds[..m], texts[..m], ids, width, size, x);
      AllWritesEarlierErr(vertIds, texts, ids, width, size);
    } else {
      assert vertIds[..m] == vertIds[..x] && texts[..m] == texts[..x];
      AllWritesLastErr(vertIds, texts, ids, width, size);
    }
  }

  /** A failure before the last vertex is the failure of the whole. */
  lemma AllWritesEarlierErr(vertIds: seq<nat>, texts: seq<string>, ids: map<Name, nat>, width: nat, size: nat)
    requires |vertIds| == |texts| > 0
    requires AllWrites(vertIds[..|vertIds| - 1], texts[..|vertIds| - 1], ids, width, size).Err?
    ensures AllWrites(vertIds, texts, ids, width, size) == AllWrites(vertIds[..|vertIds| - 1], texts[..|vertIds| - 1], ids, width, size)
  {
  }

  /** When all but the last vertex succeed, the last one's failure is the failure of the whole. */
  lemma AllWritesLastErr(vertIds: seq<nat>, texts: seq<string>, ids: map<Name, nat>, width: nat, size: nat)
    requires |vertIds| == |texts| > 0
    requires AllWrites(vertIds[..|vertIds| - 1], texts[..|vertIds| - 1], ids, width, size).Ok?
    requires VertexWrites(texts[|vertIds| - 1], ids, vertIds[|vertIds| - 1], width, size).Err?
    ensures AllWrites(vertIds, texts, ids, width, size) ==
      Err(VertexWrites(texts[|vertIds| - 1], ids, vertIds[|vertIds| - 1], width, size).error)
  {
  }

  /** The (position, weight) pairs of the writes, in order. */
  function Positions(ws: seq<Write>): (r: seq<WeightPair>)
    ensures |r| == |ws| && forall k :: 0 <= k < |ws| ==> r[k] == WeightPair(ws[k].pos, ws[k].value)
  {
    seq(|ws|, k requires 0 <= k < |ws| => WeightPair(ws[k].pos, ws[k].value))
  }

  /** The joint ids of the writes, in order. */
  function Joints(ws: seq<Write>): (r: seq<nat>)
    ensures |r| == |ws| && forall k :: 0 <= k < |ws| ==> r[k] == ws[k].joint
  {
    seq(|ws|, k requires 0 <= k < |ws| => ws[k].joint)
  }

  /** One piece read and its weight set in the array (`weights.set(weight, weight_matrix_pos)`). */
  method WritePiece(a: array<Weight>, piece: string, ids: map<Name, nat>, vert: nat, width: nat) returns (w: Result<Write>)
    modifies a
    ensures w == PieceWrite(piece, ids, vert, width, a.Length)
    ensures w.Ok? ==> a[..] == old(a[..])[w.value.pos := w.value.value]
    ensures w.Err? ==> a[..] == old(a[..])
  {
    w := PieceWrite(piece, ids, vert, width, a.Length);
    if w.Ok? {
      a[w.value.pos] := w.value.value;
    }
  }

  /**
   * The inner loop of the unbake for one vertex: each piece's weight is set
   * in the array and its joint id added to the pattern unless already there.
   */
  method UnbakeVertex(a: array<Weight>, width: nat, vert: nat, text: string, ids: map<Name, nat>, pattern: seq<nat>,
                      ghost a0: seq<Weight>, ghost done: seq<Write>) returns (r: Result<seq<nat>>)
    requires |a0| == a.Length && Inside(done, a.Length)
    requires a[..] == Place(a0, Positions(done)) && pattern == Dedup(Joints(done))
    modifies a
    ensures match VertexWrites(text, ids, vert, width, a.Length)
      case Err(e) => r == Err(e)
      case Ok(ws) => r == Ok(Dedup(Joints(done + ws))) && a[..] == Place(a0, Positions(done + ws))
  {
    var pieces := NonEmpty(Split(text, '|'));
    ghost var all := PieceWrites(pieces, ids, vert, width, a.Length);
    ghost var vs: seq<Write> := [];
    var pat := pattern;
    assert done + vs == done;
    for k := 0 to |pieces|
      invariant Collect(all[..k]) == Ok(vs)
      invariant Inside(done + vs, a.Length)
      invariant a[..] == Place(a0, Positions(done + vs))
      invariant pat == Dedup(Joints(done + vs))
    {
      var w := WritePiece(a, pieces[k], ids, vert, width);
      assert all[k] == w;
      if w.Err? {
        CollectFail(all, k);
        assert VertexWrites(text, ids, vert, width, a.Length) == Err(w.error);
        return Err(w.error);
      }
      VertexStep(all, k, vs, w.value, a0, done);
      if w.value.joint !in pat {
        pat := pat + [w.value.joint];
      }
      vs := vs + [w.value];
      assert pat == Dedup(Joints(done + vs));
    }
    assert all[..|pieces|] == all;
    assert VertexWrites(text, ids, vert, width, a.Length) == Ok(vs);
    return Ok(pat);
  }

  /** The bookkeeping of one step of `UnbakeVertex`: the collected writes and their effect grow by one. */
  lemma VertexStep(all: seq<Result<Write>>, k: nat, vs: seq<Write>, w: Write, a0: seq<Weight>, done: seq<Write>)
    requires k < |all| && all[k] == Ok(w) && Collect(all[..k]) == Ok(vs)
    requires Inside(done + vs, |a0|) && w.pos < |a0|
    ensures Collect(all[..k + 1]) == Ok(vs + [w]) && Inside(done + (vs + [w]), |a0|)
    ensures Place(a0, Positions(done + (vs + [w]))) == Place(a0, Positions(done + vs))[w.pos := w.value]
    ensures Dedup(Joints(done + (vs + [w]))) ==
      if w.joint in Dedup(Joints(done + vs)) then Dedup(Joints(done + vs)) else Dedup(Joints(done + vs)) + [w.joint]
  {
    CollectAppend(all[..k], w);
    assert all[..k + 1] == all[..k] + [Ok(w)];
    assert done + (vs + [w]) == (done + vs) + [w];
    WriteStep(a0, done + vs, w);
  }

  /** One more write sets one more cell, and adds its joint id to the first-seen list unless already there. */
  lemma WriteStep(a0: seq<Weight>, before: seq<Write>, w: Write)
    requires Inside(before, |a0|) && w.pos < |a0|
    ensures Inside(before + [w], |a0|)
    ensures Place(a0, Positions(before + [w])) == Place(a0, Positions(before))[w.pos := w.value]
    ensures Dedup(Joints(before + [w])) ==
      if w.joint in Dedup(Joints(before)) then Dedup(Joints(before)) else Dedup(Joints(before)) + [w.joint]
  {
    assert Positions(before + [w]) == Positions(before) + [WeightPair(w.pos, w.value)];
    assert (Positions(before) + [WeightPair(w.pos, w.value)])[..|before|] == Positions(before);
    assert Joints(before + [w]) == Joints(before) + [w.joint];
    assert (Joints(before) + [w.joint])[..|before|] == Joints(before);
  }

  /**
   * The loop of `_unbake_vertex_blind_data` over the stored strings: every
   * piece's weight written at `vert_id * influence_length + joint_id` of the
   * weight array, and the joint ids collected in first-seen order.
   */
  method UnbakeWrites(a: array<Weight>, width: nat, vertIds: seq<nat>, texts: seq<string>, ids: map<Name, nat>) returns (r: Result<seq<nat>>)
    requires |vertIds| == |texts|
    modifies a
    ensures match AllWrites(vertIds, texts, ids, width, a.Length)
      case Err(e) => r == Err(e)
      case Ok(ws) => r == Ok(Dedup(Joints(ws))) && a[..] == Place(old(a[..]), Positions(ws))
  {
    ghost var a0 := a[..];
    ghost var done: seq<Write> := [];
    var pattern: seq<nat> := [];
    for x := 0 to |vertIds|
      invariant AllWrites(vertIds[..x], texts[..x], ids, width, a.Length) == Ok(done)
      invariant a[..] == Place(a0, Positions(done)) && pattern == Dedup(Joints(done))
    {
      assert vertIds[..x + 1][..x] == vertIds[..x] && texts[..x + 1][..x] == texts[..x];
      var got := UnbakeVertex(a, width, vertIds[x], texts[x], ids, pattern, a0, done);
      if got.Err? {
        AllWritesErr(vertIds, texts, ids, width, a.Length, x);
        return Err(got.error);
      }
      done := done + VertexWrites(texts[x], ids, vertIds[x], width, a.Length).value;
      pattern := got.value;
    }
    assert vertIds[..|vertIds|] == vertIds && texts[..|texts|] == texts;
    return Ok(pattern);
  }

  /** `influence_array`: n zeros with slot id set to id for each id of the pattern, in order; an id past the end raises. */
  function InfluenceArray(n: nat, pattern: seq<nat>): (r: Result<seq<nat>>)
    ensures r.Ok? <==> forall k :: 0 <= k < |pattern| ==> pattern[k] < n
    ensures r.Ok? ==> |r.value| == n && forall i :: 0 <= i < n ==> r.value[i] == if i in pattern then i else 0
    decreases |pattern|
  {
    if pattern == [] then Ok(seq(n, i => 0))
    else
      var m := |pattern| - 1;
      match InfluenceArray(n, pattern[..m])
      case Err(e) => Err(e)
      case Ok(arr) =>
        if pattern[m] < n then
          assert forall i :: i in pattern <==> i in pattern[..m] || i == pattern[m] by {
            assert pattern == pattern[..m] + [pattern[m]];
          }
          Ok(arr[pattern[m] := pattern[m]])
        else Err(MissingColumn(pattern[m]))
  }

  /** The loop that fills the influence array. */
  method SetInfluenceArray(pattern: seq<nat>) returns (r: Result<seq<nat>>)
    ensures r == InfluenceArray(|pattern|, pattern)
  {
    var n := |pattern|;
    var arr: seq<nat> := seq(n, i => 0);
    for k := 0 to n
      invariant InfluenceArray(n, pattern[..k]) == Ok(arr)
    {
      assert pattern[..k + 1][..k] == pattern[..k];
      if pattern[k] >= n {
        InfluenceArrayErr(n, pattern, k);
        return Err(MissingColumn(pattern[k]));
      }
      arr := arr[pattern[k] := pattern[k]];
    }
    assert pattern[..n] == pattern;
    return Ok(arr);
  }

  /** The first id past the end decides the error. */
  lemma {:induction false} InfluenceArrayErr(n: nat, pattern: seq<nat>, k: nat)
    requires k < |pattern| && pattern[k] >= n && InfluenceArray(n, pattern[..k]).Ok?
    ensures InfluenceArray(n, pattern) == Err(MissingColumn(pattern[k]))
    decreases |pattern|
  {
    var m := |pattern| - 1;
    if m > k {
      assert pattern[..m][..k] == pattern[..k];
      InfluenceArrayErr(n, pattern[..m], k);
    } else {
      assert pattern[..m] == pattern[..k];
    }
  }

  /** With every id of a first-seen list below its length, the influence array is `0, 1, ..., n - 1`. */
  lemma InfluenceArrayIdentity(pattern: seq<nat>)
    requires Distinct(pattern) && InfluenceArray(|pattern|, pattern).Ok?
    ensures InfluenceArray(|pattern|, pattern).value == Range(|pattern|)
  {
    DistinctBelowCovers(pattern);
  }

  /** The vertex ids `getStringBlindData` hands back beside the strings: each vertex holding one, highest first. */
  function StoredVerts(store: map<nat, string>, nv: nat): (r: seq<nat>)
    ensures |r| == |StoredDescending(store, nv)|
    ensures forall x :: 0 <= x < |r| ==> r[x] < nv && r[x] in store && store[r[x]] == StoredDescending(store, nv)[x]
    decreases nv
  {
    if nv == 0 then []
    else (if nv - 1 in store then [nv - 1] else []) + StoredVerts(store, nv - 1)
  }

  /** What `_unbake_vertex_blind_data` hands the new skinCluster. */
  datatype Unbaked = Unbaked(influences: set<Name>, weights: seq<Weight>, influenceArray: seq<nat>)

  /**
   * `_unbake_vertex_blind_data` onto a new skinCluster whose influences, in
   * influence-object order, are `created`: the names it binds, the weight
   * array (all zero after the prune, then each piece written at
   * `vert_id * influence_length + joint_id`) and the influence array.
   */
  function UnbakeSpec(h: HostMesh, created: seq<Influence>): Result<Unbaked>
  {
    var store := Skinning.StoreOf(h, BLIND_DATA_ID);
    var texts := StoredDescending(store, |h.points|);
    var width := |created|;
    var size := ArraySize(|h.points|, width);
    match AllWrites(StoredVerts(store, |h.points|), texts, Skinning.ShortIds(created), width, size)
    case Err(e) => Err(e)
    case Ok(ws) =>
      var pattern := Dedup(Joints(ws));
      match InfluenceArray(|pattern|, pattern)
      case Err(e) => Err(e)
      case Ok(arr) => Ok(Unbaked(Skinning.Requested(texts), Place(Zeros(size), Positions(ws)), arr))
  }

  /** The length of the weight array: one weight per vertex and influence. */
  function ArraySize(verts: nat, width: nat): (r: nat)
    ensures r == verts * width
  {
    MulMono(0, verts, width);
    verts * width
  }

  /** The weight array after the prune: every weight zero. */
  method ZeroWeights(size: nat) returns (a: array<Weight>)
    ensures fresh(a) && a[..] == Zeros(size)
  {
    a := new Weight[size];
    for i := 0 to size
      invariant forall j :: 0 <= j < i ==> a[j] == 0
    {
      a[i] := 0;
    }
  }

  /** `_unbake_vertex_blind_data`: names gathered, ids built, weights written into the array, influence array set. */
  method UnbakeVertexBlindData(h: HostMesh, created: seq<Influence>) returns (r: Result<Unbaked>)
    ensures r == UnbakeSpec(h, created)
  {
    var store := Skinning.StoreOf(h, BLIND_DATA_ID);
    var verts := StoredVerts(store, |h.points|);
    var texts := StoredDescending(store, |h.points|);
    var influences := Skinning.GatherNames(texts);
    var ids := Skinning.BuildShortIds(created);
    var width := |created|;
    var weights := ZeroWeights(ArraySize(|h.points|, width));
    var pattern := UnbakeWrites(weights, width, verts, texts, ids);
    if pattern.Err? {
      return Err(pattern.error);
    }
    var arr := SetInfluenceArray(pattern.value);
    if arr.Err? {
      return Err(arr.error);
    }
    return Ok(Unbaked(influences, weights[..], arr.value));
  }

  /**
   * A baked string read back for vertex `vert` through the short names of the
   * new influences: one write per entry, in order, of the entry's weight at
   * `vert * width` plus the id of the influence with the entry's name.
   */
  lemma VertexWritesEncode(es: seq<Entry>, created: seq<Influence>, vert: nat, size: nat)
    requires forall k :: 0 <= k < |es| ==> Bakeable(es[k].name) && es[k].name in Skinning.ShortIds(created)
    requires (vert + 1) * |created| <= size
    ensures VertexWrites(Encode(es), Skinning.ShortIds(created), vert, |created|, size) == Ok(EntryWrites(es, created, vert))
  {
    var ids := Skinning.ShortIds(created);
    var width := |created|;
    var pieces := NonEmpty(Split(Encode(es), '|'));
    var want := EntryWrites(es, created, vert);
    ParseEncode(es);
    assert ParseAll(pieces) == Ok(es);
    var rs := PieceWrites(pieces, ids, vert, width, size);
    forall k | 0 <= k < |es| ensures rs[k] == Ok(want[k]) {
      EncodedPieceWrite(es, created, vert, size, pieces, k);
    }
    assert Collect(rs).value == want;
  }

  /** Piece k of an encoded vertex string writes entry k's weight in the vertex's slot for its name. */
  lemma EncodedPieceWrite(es: seq<Entry>, created: seq<Influence>, vert: nat, size: nat, pieces: seq<string>, j: nat)
    requires forall k :: 0 <= k < |es| ==> es[k].name in Skinning.ShortIds(created)
    requires (vert + 1) * |created| <= size
    requires ParseAll(pieces) == Ok(es) && j < |es|
    ensures PieceWrite(pieces[j], Skinning.ShortIds(created), vert, |created|, size) == Ok(EntryWrites(es, created, vert)[j])
  {
    var ids := Skinning.ShortIds(created);
    var width := |created|;
    var e := es[j];
    assert ParsePiece(pieces[j]) == Ok(e);
    assert e.name in ids && ids[e.name] < width;
    PieceWriteEntry(pieces[j], e, ids, vert, width, size);
    assert EntryWrites(es, created, vert)[j] == Write(ids[e.name], vert * width + ids[e.name], e.value);
  }

  /** A piece that parses to an entry of a known name writes that entry's weight in the vertex's slot for the name. */
  lemma PieceWriteEntry(piece: string, e: Entry, ids: map<Name, nat>, vert: nat, width: nat, size: nat)
    requires ParsePiece(piece) == Ok(e) && e.name in ids && ids[e.name] < width && (vert + 1) * width <= size
    ensures PieceWrite(piece, ids, vert, width, size) == Ok(Write(ids[e.name], vert * width + ids[e.name], e.value))
  {
    assert (vert + 1) * width == vert * width + width;
  }

  /** The writes the entries of one vertex string should give. */
  function EntryWrites(es: seq<Entry>, created: seq<Influence>, vert: nat): (r: seq<Write>)
    requires forall k :: 0 <= k < |es| ==> es[k].name in Skinning.ShortIds(created)
    ensures |r| == |es|
  {
    WritesByIds(es, Skinning.ShortIds(created), |created|, vert)
  }

  /** Entry k written at column `ids[name]` of row `vert` in a matrix `width` columns wide. */
  function WritesByIds(es: seq<Entry>, ids: map<Name, nat>, width: nat, vert: nat): (r: seq<Write>)
    requires forall k :: 0 <= k < |es| ==> es[k].name in ids
    ensures |r| == |es|
  {
    seq(|es|, k requires 0 <= k < |es| => Write(ids[es[k].name], vert * width + ids[es[k].name], es[k].value))
  }

  /** Every name a bake writes is the partial path of one of the influences. */
  lemma BakedNames(plugs: seq<WeightPair>, bones: seq<Influence>, created: seq<Influence>)
    requires BakeEntries(plugs, bones).Ok?
    requires forall k :: 0 <= k < |bones| ==> Bakeable(bones[k].partialPath) && bones[k].partialPath in Skinning.ShortIds(created)
    ensures var es := BakeEntries(plugs, bones).value;
      forall k :: 0 <= k < |es| ==> Bakeable(es[k].name) && es[k].name in Skinning.ShortIds(created)
  {
    var es := BakeEntries(plugs, bones).value;
    forall k | 0 <= k < |es| ensures Bakeable(es[k].name) && es[k].name in Skinning.ShortIds(created) {
      assert BakeEntry(plugs[k], bones) == Ok(es[k]);
    }
  }

  /**
   * Bake, then read back the string of vertex v onto new influences whose
   * short names cover the baked partial paths: one write per existing plug of
   * v, in plug order, each at `v * width` plus the id of the influence named
   * like the baked one, holding the plug's weight.
   */
  lemma BakeThenUnbakeVertex(h: HostMesh, created: seq<Influence>, v: nat)
    requires BakeSpec(h).Ok? && v < |h.points|
    requires forall k :: 0 <= k < |h.influences| ==>
      Bakeable(h.influences[k].partialPath) && h.influences[k].partialPath in Skinning.ShortIds(created)
    ensures BakeEntries(Skinning.PlugsOf(h, v), h.influences).Ok?
    ensures v in Skinning.StoreOf(BakeSpec(h).value, BLIND_DATA_ID)
    ensures var es := BakeEntries(Skinning.PlugsOf(h, v), h.influences).value;
      (forall k :: 0 <= k < |es| ==> es[k].name in Skinning.ShortIds(created)) &&
      VertexWrites(Skinning.StoreOf(BakeSpec(h).value, BLIND_DATA_ID)[v], Skinning.ShortIds(created), v, |created|,
                   ArraySize(|h.points|, |created|)) == Ok(EntryWrites(es, created, v))
  {
    var plugs := Skinning.PlugsOf(h, v);
    BakeStores(h, v);
    var es := BakeEntries(plugs, h.influences).value;
    assert Skinning.StoreOf(BakeSpec(h).value, BLIND_DATA_ID)[v] == Encode(es);
    BakedNames(plugs, h.influences, created);
    MulMono(v + 1, |h.points|, |created|);
    VertexWritesEncode(es, created, v, ArraySize(|h.points|, |created|));
  }
}
