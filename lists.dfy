/**
 * List operations the engine leans on: `list.index`, `list.remove`,
 * order-preserving filters, first-seen de-duplication, and the partition of a
 * list of joints into those present in the scene and those that are not.
 */
module Lists {
  import opened Wrappers

  /** `xs.index(x)`, with None where Python raises ValueError. */
  function IndexOf<T(==)>(xs: seq<T>, x: T): (r: Option<nat>)
    ensures r.Some? <==> x in xs
    ensures r.Some? ==> r.value < |xs| && xs[r.value] == x
    ensures r.Some? ==> forall k :: 0 <= k < r.value ==> xs[k] != x
    decreases |xs|
  {
    if xs == [] then None
    else if xs[0] == x then Some(0)
    else match IndexOf(xs[1..], x)
      case None => None
      case Some(i) => Some(i + 1)
  }

  predicate Distinct<T(==)>(xs: seq<T>)
  {
    forall i, j :: 0 <= i < j < |xs| ==> xs[i] != xs[j]
  }

  /** In a list without repeats, `index` finds every element at its own position. */
  lemma IndexOfDistinct<T>(xs: seq<T>, i: nat)
    requires Distinct(xs) && i < |xs|
    ensures IndexOf(xs, xs[i]) == Some(i)
  {
  }

  /** The elements of xs that are in s, in their order: `[x for x in xs if x in s]`. */
  function Keep<T(==)>(xs: seq<T>, s: set<T>): (r: seq<T>)
    ensures |r| <= |xs|
    ensures forall i :: 0 <= i < |r| ==> r[i] in xs && r[i] in s
    ensures forall i :: 0 <= i < |xs| && xs[i] in s ==> xs[i] in r
    decreases |xs|
  {
    if xs == [] then []
    else
      var init, last := xs[..|xs| - 1], xs[|xs| - 1];
      assert xs == init + [last];
      Keep(init, s) + (if last in s then [last] else [])
  }

  /** The elements of xs that are not in s, in their order: `[x for x in xs if x not in s]`. */
  function Drop<T(==)>(xs: seq<T>, s: set<T>): (r: seq<T>)
    ensures |r| <= |xs|
    ensures forall i :: 0 <= i < |r| ==> r[i] in xs && r[i] !in s
    ensures forall i :: 0 <= i < |xs| && xs[i] !in s ==> xs[i] in r
    decreases |xs|
  {
    if xs == [] then []
    else
      var init, last := xs[..|xs| - 1], xs[|xs| - 1];
      assert xs == init + [last];
      Drop(init, s) + (if last !in s then [last] else [])
  }

  /** Dropping the elements of a set that holds them all leaves nothing. */
  lemma DropAll<T>(xs: seq<T>, s: set<T>)
    requires forall x :: x in xs ==> x in s
    ensures Drop(xs, s) == []
  {
  }

  /** Kept and dropped elements together are exactly the input, counted with repeats. */
  lemma {:induction false} KeepDropPartition<T>(xs: seq<T>, s: set<T>)
    ensures multiset(Keep(xs, s)) + multiset(Drop(xs, s)) == multiset(xs)
    ensures |Keep(xs, s)| + |Drop(xs, s)| == |xs|
    decreases |xs|
  {
    if xs != [] {
      var init, last := xs[..|xs| - 1], xs[|xs| - 1];
      KeepDropPartition(init, s);
      assert xs == init + [last];
      SplitStep(Keep(init, s), Drop(init, s), init, last, last in s);
    }
  }

  /** Sending one more element to one of two lists keeps the two a split of the input. */
  lemma SplitStep<T>(kept: seq<T>, dropped: seq<T>, xs: seq<T>, x: T, keep: bool)
    requires multiset(kept) + multiset(dropped) == multiset(xs) && |kept| + |dropped| == |xs|
    ensures var k, d := kept + (if keep then [x] else []), dropped + (if keep then [] else [x]);
      multiset(k) + multiset(d) == multiset(xs + [x]) && |k| + |d| == |xs + [x]|
  {
  }

  /** Filters keep the relative order of what they keep: a kept list is a subsequence. */
  lemma {:induction false} KeepAppend<T>(xs: seq<T>, ys: seq<T>, s: set<T>)
    ensures Keep(xs + ys, s) == Keep(xs, s) + Keep(ys, s)
    decreases |ys|
  {
    if ys == [] {
      assert xs + ys == xs;
    } else {
      var init, last := ys[..|ys| - 1], ys[|ys| - 1];
      KeepAppend(xs, init, s);
      var tail := if last in s then [last] else [];
      assert Keep(xs + ys, s) == Keep(xs + init, s) + tail by {
        assert (xs + ys)[..|xs + ys| - 1] == xs + init;
      }
      assert Keep(xs, s) + Keep(init, s) + tail == Keep(xs, s) + (Keep(init, s) + tail);
    }
  }

  /**
   * The loop that sorts joints into those found in the scene and those that
   * are not, appending each to one list or the other.
   */
  method Partition<T(==)>(joints: seq<T>, scene: set<T>) returns (existing: seq<T>, unused: seq<T>)
    ensures existing == Keep(joints, scene)
    ensures unused == Drop(joints, scene)
  {
    existing, unused := [], [];
    var i := 0;
    while i < |joints|
      invariant 0 <= i <= |joints|
      invariant existing == Keep(joints[..i], scene)
      invariant unused == Drop(joints[..i], scene)
    {
      assert joints[..i + 1][..i] == joints[..i];
      if joints[i] in scene {
        existing := existing + [joints[i]];
      } else {
        unused := unused + [joints[i]];
      }
      i := i + 1;
    }
    assert joints[..i] == joints;
  }

  /** `xs.remove(x)`: the list without the first occurrence of x (unchanged when x is absent). */
  function RemoveFirst<T(==)>(xs: seq<T>, x: T): (r: seq<T>)
    ensures x in xs ==> |r| == |xs| - 1 && multiset(r) == multiset(xs) - multiset{x}
    ensures x !in xs ==> r == xs
    decreases |xs|
  {
    if xs == [] then []
    else if xs[0] == x then
      assert xs == [xs[0]] + xs[1..];
      xs[1..]
    else
      assert xs == [xs[0]] + xs[1..];
      [xs[0]] + RemoveFirst(xs[1..], x)
  }

  /** `remove` cuts out exactly the element `index` finds, and keeps the others in their order. */
  lemma {:induction false} RemoveFirstAt<T>(xs: seq<T>, x: T)
    ensures IndexOf(xs, x).Some? ==>
      RemoveFirst(xs, x) == xs[..IndexOf(xs, x).value] + xs[IndexOf(xs, x).value + 1..]
    decreases |xs|
  {
    match IndexOf(xs, x)
    case None =>
    case Some(i) =>
      if i == 0 {
        assert RemoveFirst(xs, x) == xs[1..];
        assert xs[..0] + xs[1..] == xs[1..];
      } else {
        assert xs[0] != x && IndexOf(xs[1..], x) == Some(i - 1);
        RemoveFirstAt(xs[1..], x);
        RemoveFirstStep(xs, x, i - 1);
      }
  }

  /** The step of `RemoveFirstAt`: a head other than x stays in front of the tail's cut. */
  lemma RemoveFirstStep<T>(xs: seq<T>, x: T, i: nat)
    requires xs != [] && xs[0] != x && IndexOf(xs[1..], x) == Some(i)
    requires RemoveFirst(xs[1..], x) == xs[1..][..i] + xs[1..][i + 1..]
    ensures IndexOf(xs, x) == Some(i + 1) && RemoveFirst(xs, x) == xs[..i + 1] + xs[i + 2..]
  {
    ConsCut(xs, i);
  }

  /** Cutting position i out of the tail and putting the head back cuts position i + 1 out of the list. */
  lemma ConsCut<T>(xs: seq<T>, i: nat)
    requires i + 1 < |xs|
    ensures [xs[0]] + (xs[1..][..i] + xs[1..][i + 1..]) == xs[..i + 1] + xs[i + 2..]
  {
    assert [xs[0]] + xs[1..][..i] == xs[..i + 1];
    assert xs[1..][i + 1..] == xs[i + 2..];
  }

  /** The list with the first occurrence of every element of s removed, scanning left to right. */
  function RemoveFirstOfEach<T(==)>(xs: seq<T>, s: set<T>): seq<T>
    decreases |xs|
  {
    if xs == [] then []
    else if xs[0] in s then RemoveFirstOfEach(xs[1..], s - {xs[0]})
    else [xs[0]] + RemoveFirstOfEach(xs[1..], s)
  }

  /** Removing one more value, in any order, is the same as asking for it in the set. */
  lemma {:induction false} RemoveFirstOfEachStep<T>(xs: seq<T>, s: set<T>, x: T)
    requires x !in s
    ensures RemoveFirst(RemoveFirstOfEach(xs, s), x) == RemoveFirstOfEach(xs, s + {x})
    decreases |xs|
  {
    if xs != [] {
      var h := xs[0];
      if h in s {
        assert (s + {x}) - {h} == (s - {h}) + {x};
        RemoveFirstOfEachStep(xs[1..], s - {h}, x);
      } else if h == x {
        assert (s + {x}) - {h} == s;
      } else {
        RemoveFirstOfEachStep(xs[1..], s, x);
      }
    }
  }

  /** `[x]` appended to the distinct elements seen so far unless already there, from the front. */
  function Dedup<T(==)>(xs: seq<T>): (r: seq<T>)
    ensures Distinct(r)
    ensures forall i :: 0 <= i < |r| ==> r[i] in xs
    ensures forall i :: 0 <= i < |xs| ==> xs[i] in r
    decreases |xs|
  {
    if xs == [] then []
    else
      var init, last := xs[..|xs| - 1], xs[|xs| - 1];
      assert xs == init + [last];
      var d := Dedup(init);
      if last in d then d else d + [last]
  }

  /** De-duplication lists values in the order of their first occurrence. */
  lemma {:induction false} DedupFirstSeen<T>(xs: seq<T>, i: nat, j: nat)
    requires i < j < |Dedup(xs)|
    ensures IndexOf(xs, Dedup(xs)[i]).Some? && IndexOf(xs, Dedup(xs)[j]).Some?
    ensures IndexOf(xs, Dedup(xs)[i]).value < IndexOf(xs, Dedup(xs)[j]).value
    decreases |xs|
  {
    var init, last := xs[..|xs| - 1], xs[|xs| - 1];
    assert xs == init + [last];
    var d := Dedup(init);
    assert xs[..|xs| - 1] == init;
    if j < |d| {
      DedupFirstSeen(init, i, j);
      IndexOfPrefix(xs, d[i]);
      IndexOfPrefix(xs, d[j]);
    } else {
      assert Dedup(xs)[j] == last && last !in init;
      IndexOfPrefix(xs, d[i]);
      IndexOfPrefix(xs, last);
    }
  }

  /** Appending an element does not move the first occurrence of a value already present. */
  lemma {:induction false} IndexOfPrefix<T>(xs: seq<T>, x: T)
    requires |xs| > 0
    ensures x in xs[..|xs| - 1] ==> IndexOf(xs, x) == IndexOf(xs[..|xs| - 1], x)
    ensures x !in xs[..|xs| - 1] ==> IndexOf(xs, x) == if x == xs[|xs| - 1] then Some(|xs| - 1) else None
    decreases |xs|
  {
    var init := xs[..|xs| - 1];
    if |xs| == 1 {
      assert init == [];
    } else if xs[0] == x {
      assert init[0] == x;
    } else {
      IndexOfPrefix(xs[1..], x);
      assert xs[1..][..|xs| - 2] == init[1..];
      assert init == [init[0]] + init[1..];
    }
  }

  /** The numbers below n. */
  function Below(n: nat): (r: set<nat>)
    ensures |r| == n && forall i :: i in r <==> 0 <= i < n
    decreases n
  {
    if n == 0 then {}
    else
      var b := Below(n - 1);
      assert n - 1 !in b;
      b + {n - 1}
  }

  /** The values a list holds. */
  function Elements<T>(xs: seq<T>): set<T>
  {
    set x | x in xs
  }

  /** A list without repeats holds as many values as it has positions. */
  lemma {:induction false} DistinctElements<T>(xs: seq<T>)
    requires Distinct(xs)
    ensures |Elements(xs)| == |xs|
    decreases |xs|
  {
    if xs != [] {
      var init, last := xs[..|xs| - 1], xs[|xs| - 1];
      DistinctElements(init);
      assert xs == init + [last];
      assert Elements(xs) == Elements(init) + {last};
    }
  }

  lemma {:induction false} SubsetSize<T>(a: set<T>, b: set<T>)
    requires a <= b
    ensures |a| <= |b|
    decreases |b|
  {
    if b != {} {
      var y :| y in b;
      SubsetSize(a - {y}, b - {y});
    }
  }

  /** Pigeonhole: n distinct numbers all below n are every number below n. */
  lemma DistinctBelowCovers(xs: seq<nat>)
    requires Distinct(xs) && forall k :: 0 <= k < |xs| ==> xs[k] < |xs|
    ensures forall i :: 0 <= i < |xs| ==> i in xs
  {
    var s := Elements(xs);
    DistinctElements(xs);
    forall i | 0 <= i < |xs| ensures i in xs {
      if i !in xs {
        forall x | x in s ensures x in Below(|xs|) - {i} {
          var k :| 0 <= k < |xs| && xs[k] == x;
        }
        var b := Below(|xs|);
        assert i in b;
        assert |b - {i}| == |xs| - 1;
        SubsetSize(s, b - {i});
        assert false;
      }
    }
  }
}
