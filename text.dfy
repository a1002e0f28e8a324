/**
 * The string operations the modelled code relies on: Python's `str.split` and
 * `str.join` for a one-character separator, decimal printing and parsing of
 * non-negative integers (the stand-in for `str(weight)` and `float(text)`),
 * and the substring searches behind `in`, `rindex` and `index`.
 */
module Text {
  import opened Wrappers

  predicate IsDigit(c: char) { '0' <= c <= '9' }

  predicate AllDigits(s: string) { forall i :: 0 <= i < |s| ==> IsDigit(s[i]) }

  function DigitChar(d: nat): (c: char)
    requires d < 10
    ensures IsDigit(c) && c as int - '0' as int == d
  {
    (('0' as int) + d) as char
  }

  /** `str(n)` for a non-negative integer. */
  function ShowNat(n: nat): (s: string)
    ensures |s| >= 1 && AllDigits(s)
    decreases n
  {
    if n < 10 then [DigitChar(n)] else ShowNat(n / 10) + [DigitChar(n % 10)]
  }

  /** The vertex string Maya gives for vertex v of a mesh, `mesh.vtx[v]`. */
  function VertString(mesh: string, v: nat): string
  {
    mesh + ".vtx[" + ShowNat(v) + "]"
  }

  /** `str(i)` for any integer: a minus sign before the digits of a negative value. */
  function ShowInt(i: int): string
  {
    if i < 0 then "-" + ShowNat(-i) else ShowNat(i)
  }

  function DigitsValue(s: string): nat
    requires AllDigits(s)
    decreases |s|
  {
    if s == [] then 0 else DigitsValue(s[..|s| - 1]) * 10 + (s[|s| - 1] as int - '0' as int)
  }

  /** `int(text)` for plain decimal text: None where Python would raise ValueError. */
  function ParseNat(s: string): (r: Option<nat>)
    ensures r.Some? <==> s != [] && AllDigits(s)
  {
    if s != [] && AllDigits(s) then Some(DigitsValue(s)) else None
  }

  lemma {:induction false} ParseShowNat(n: nat)
    ensures ParseNat(ShowNat(n)) == Some(n)
    decreases n
  {
    var s := ShowNat(n);
    if n < 10 {
      assert s[..|s| - 1] == [];
      assert DigitsValue(s) == n;
    } else {
      ParseShowNat(n / 10);
      assert s[..|s| - 1] == ShowNat(n / 10);
      assert DigitsValue(s) == DigitsValue(ShowNat(n / 10)) * 10 + n % 10;
    }
  }

  /** Powers of ten, for digit counts. */
  function Pow10(k: nat): (p: nat)
    ensures p >= 1
  {
    if k == 0 then 1 else 10 * Pow10(k - 1)
  }

  /** A non-negative integer prints with more than k digits exactly when it reaches 10^k. */
  lemma {:induction false} ShowNatLength(n: nat, k: nat)
    requires k >= 1
    ensures |ShowNat(n)| > k <==> n >= Pow10(k)
    decreases n
  {
    if n >= 10 && k >= 2 {
      ShowNatLength(n / 10, k - 1);
    }
  }

  // ---------------------------------------------------------------------------
  // split and join on a one-character separator

  /** `s.split(sep)`: the pieces between separators, always at least one. */
  function Split(s: string, sep: char): (r: seq<string>)
    ensures |r| >= 1
    decreases |s|
  {
    if s == [] then [""]
    else if s[0] == sep then [""] + Split(s[1..], sep)
    else
      var rest := Split(s[1..], sep);
      [[s[0]] + rest[0]] + rest[1..]
  }

  /** `sep.join(parts)`. */
  function Join(parts: seq<string>, sep: char): string
    decreases |parts|
  {
    if |parts| == 0 then ""
    else if |parts| == 1 then parts[0]
    else parts[0] + [sep] + Join(parts[1..], sep)
  }

  /** No piece of a split contains the separator. */
  lemma {:induction false} SplitPiecesFree(s: string, sep: char)
    ensures forall k :: 0 <= k < |Split(s, sep)| ==> sep !in Split(s, sep)[k]
    decreases |s|
  {
    if s != [] {
      SplitPiecesFree(s[1..], sep);
    }
  }

  /** Joining the pieces of a split gives back the text. */
  lemma {:induction false} JoinSplit(s: string, sep: char)
    ensures Join(Split(s, sep), sep) == s
    decreases |s|
  {
    if s != [] {
      JoinSplit(s[1..], sep);
      var rest := Split(s[1..], sep);
      if s[0] == sep {
        assert Split(s, sep) == [""] + rest;
        assert ([""] + rest)[1..] == rest;
      } else {
        var r := [[s[0]] + rest[0]] + rest[1..];
        assert r[1..] == rest[1..];
        if |rest| > 1 {
          assert Join(rest, sep) == rest[0] + [sep] + Join(rest[1..], sep);
        }
      }
    }
  }

  /** Text free of the separator splits into itself alone. */
  lemma {:induction false} SplitFree(w: string, sep: char)
    requires sep !in w
    ensures Split(w, sep) == [w]
    decreases |w|
  {
    if w != [] {
      SplitFree(w[1..], sep);
      assert w[0] != sep;
      assert [w[0]] + w[1..] == w;
    }
  }

  /** A separator-free head followed by the separator splits off as one piece. */
  lemma {:induction false} SplitHead(w: string, sep: char, t: string)
    requires sep !in w
    ensures Split(w + [sep] + t, sep) == [w] + Split(t, sep)
    decreases |w|
  {
    if w == [] {
      assert w + [sep] + t == [sep] + t;
      assert ([sep] + t)[1..] == t;
    } else {
      SplitHead(w[1..], sep, t);
      assert (w + [sep] + t)[1..] == w[1..] + [sep] + t;
      assert [w[0]] + w[1..] == w;
    }
  }

  /** Splitting a join of separator-free pieces gives back the pieces. */
  lemma {:induction false} SplitJoin(parts: seq<string>, sep: char)
    requires |parts| >= 1
    requires forall k :: 0 <= k < |parts| ==> sep !in parts[k]
    ensures Split(Join(parts, sep), sep) == parts
    decreases |parts|
  {
    if |parts| == 1 {
      SplitFree(parts[0], sep);
    } else {
      SplitJoin(parts[1..], sep);
      SplitHead(parts[0], sep, Join(parts[1..], sep));
      assert [parts[0]] + parts[1..] == parts;
    }
  }

  /** `s.split(sep)[-1]`: the text after the last separator. */
  function LastPiece(s: string, sep: char): (r: string)
    ensures sep !in r
  {
    SplitPiecesFree(s, sep);
    var pieces := Split(s, sep);
    pieces[|pieces| - 1]
  }

  /** Separator-free text is its own last piece, so `name.split("|")[-1]` leaves a short name alone. */
  lemma LastPieceOfFree(w: string, sep: char)
    requires sep !in w
    ensures LastPiece(w, sep) == w
  {
    SplitFree(w, sep);
  }

  /** Text, a separator, then more text: the pieces of the first part followed by those of the second. */
  lemma {:induction false} SplitConcat(a: string, sep: char, b: string)
    ensures Split(a + [sep] + b, sep) == Split(a, sep) + Split(b, sep)
    decreases |a|
  {
    if a == [] {
      assert a + [sep] + b == [sep] + b;
      SplitCons(sep, b, sep);
    } else {
      var tail := a[1..] + [sep] + b;
      SplitConcat(a[1..], sep, b);
      assert a + [sep] + b == [a[0]] + tail;
      assert a == [a[0]] + a[1..];
      SplitCons(a[0], tail, sep);
      SplitCons(a[0], a[1..], sep);
      ConsPieces(a[0], sep, Split(a[1..], sep), Split(b, sep));
    }
  }

  /** One step of the split: a separator opens a new empty piece, any other character joins the first piece. */
  lemma SplitCons(c: char, t: string, sep: char)
    ensures Split([c] + t, sep) ==
      if c == sep then [""] + Split(t, sep) else [[c] + Split(t, sep)[0]] + Split(t, sep)[1..]
  {
    assert ([c] + t)[1..] == t;
  }

  /** The list algebra behind `SplitConcat`: adding a character in front commutes with appending pieces. */
  lemma ConsPieces(c: char, sep: char, rest: seq<string>, more: seq<string>)
    requires |rest| >= 1
    ensures (if c == sep then [""] + (rest + more) else [[c] + (rest + more)[0]] + (rest + more)[1..]) ==
      (if c == sep then [""] + rest else [[c] + rest[0]] + rest[1..]) + more
  {
    assert (rest + more)[0] == rest[0];
    assert (rest + more)[1..] == rest[1..] + more;
  }

  /** After the last separator comes the separator-free tail: `(a + sep + b).split(sep)[-1] == b`. */
  lemma LastPieceAfter(a: string, sep: char, b: string)
    requires sep !in b
    ensures LastPiece(a + [sep] + b, sep) == b
  {
    SplitConcat(a, sep, b);
    SplitFree(b, sep);
  }

  // ---------------------------------------------------------------------------
  // substring search

  /** `s[i:i + len(sub)] == sub` with the slice fully inside s. */
  predicate IsAt(s: string, sub: string, i: int)
  {
    0 <= i && i + |sub| <= |s| && s[i..i + |sub|] == sub
  }

  /** The highest i with lo <= i <= hi at which sub occurs. */
  function FindDown(s: string, sub: string, lo: nat, hi: int): (r: Option<nat>)
    ensures r.Some? ==> lo <= r.value <= hi && IsAt(s, sub, r.value)
    ensures r.Some? ==> forall j :: r.value < j <= hi ==> !IsAt(s, sub, j)
    ensures r.None? ==> forall j :: lo <= j <= hi ==> !IsAt(s, sub, j)
    decreases hi - lo + 1
  {
    if hi < lo then None
    else if IsAt(s, sub, hi) then Some(hi)
    else FindDown(s, sub, lo, hi - 1)
  }

  /** `s.rindex(sub, lo)`, with None where Python raises ValueError. */
  function LastIndexFrom(s: string, sub: string, lo: nat): (r: Option<nat>)
    ensures r.Some? ==> lo <= r.value && IsAt(s, sub, r.value)
    ensures r.Some? ==> forall j :: r.value < j ==> !IsAt(s, sub, j)
    ensures r.None? ==> forall j :: lo <= j ==> !IsAt(s, sub, j)
  {
    FindDown(s, sub, lo, |s| - |sub|)
  }

  /** The lowest i with lo <= i <= hi at which sub occurs. */
  function FindUp(s: string, sub: string, lo: nat, hi: int): (r: Option<nat>)
    ensures r.Some? ==> lo <= r.value <= hi && IsAt(s, sub, r.value)
    ensures r.Some? ==> forall j :: lo <= j < r.value ==> !IsAt(s, sub, j)
    ensures r.None? ==> forall j :: lo <= j <= hi ==> !IsAt(s, sub, j)
    decreases hi - lo + 1
  {
    if hi < lo then None
    else if IsAt(s, sub, lo) then Some(lo)
    else FindUp(s, sub, lo + 1, hi)
  }

  /** `s.find(sub)`, with None for -1. */
  function FirstIndexOf(s: string, sub: string): (r: Option<nat>)
    ensures r.Some? ==> IsAt(s, sub, r.value) && forall j :: 0 <= j < r.value ==> !IsAt(s, sub, j)
    ensures r.None? ==> forall j :: 0 <= j ==> !IsAt(s, sub, j)
  {
    FindUp(s, sub, 0, |s| - |sub|)
  }

  /** Python's `sub in s` for strings. */
  predicate Contains(s: string, sub: string)
  {
    FirstIndexOf(s, sub).Some?
  }

  /** `s.split(sep)[0]` for a non-empty separator: the text before its first occurrence. */
  function BeforeFirst(s: string, sep: string): (r: string)
    ensures Contains(s, sep) ==> r + sep <= s
    ensures !Contains(s, sep) ==> r == s
  {
    match FirstIndexOf(s, sep)
    case Some(i) => s[..i]
    case None => s
  }
}
