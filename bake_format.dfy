/**
 * The per-vertex text that baking stores as string blind data: for each
 * weighted influence, `name:weight|`, concatenated. Every revision of the
 * engine writes this format; they differ in how they cut it apart again and
 * in how a parsed name is turned back into a column of the weight row.
 */
module BakeFormat {
  import opened Wrappers
  import opened Text
  import opened Lists
  import opened SkinModel

  /** One baked influence: its name and its weight. */
  datatype Entry = Entry(name: Name, value: Weight)

  /** `name + ":" + str(weight)`, the text of one entry before its `|` terminator. */
  function Piece(e: Entry): string
  {
    e.name + ":" + ShowNat(e.value)
  }

  /** The baked text of a list of entries: each piece followed by `|`, in order. */
  function Encode(es: seq<Entry>): string
    decreases |es|
  {
    if es == [] then "" else Encode(es[..|es| - 1]) + Piece(es[|es| - 1]) + "|"
  }

  /** A name that can be baked and read back: it holds neither separator. */
  predicate Bakeable(n: Name)
  {
    ':' !in n && '|' !in n
  }

  /** `piece.split(":")`: the name is the text before the first `:`, the weight is `float()` of the second part. */
  function ParsePiece(piece: string): (r: Result<Entry>)
    ensures r.Ok? ==> ':' !in r.value.name
  {
    var parts := Split(piece, ':');
    SplitPiecesFree(piece, ':');
    if |parts| < 2 then Err(Malformed(piece))
    else match ParseNat(parts[1])
      case None => Err(Malformed(piece))
      case Some(w) => Ok(Entry(parts[0], w))
  }

  /** Every piece parsed, in order; the first piece that does not parse makes the whole an error. */
  function ParseAll(pieces: seq<string>): (r: Result<seq<Entry>>)
    ensures r.Ok? ==> |r.value| == |pieces|
    ensures r.Ok? ==> forall k :: 0 <= k < |pieces| ==> ParsePiece(pieces[k]) == Ok(r.value[k])
    ensures r.Err? <==> exists k :: 0 <= k < |pieces| && ParsePiece(pieces[k]).Err?
    decreases |pieces|
  {
    if pieces == [] then Ok([])
    else match ParsePiece(pieces[0])
      case Err(e) => Err(e)
      case Ok(e) =>
        match ParseAll(pieces[1..])
        case Err(err) => Err(err)
        case Ok(rest) => Ok([e] + rest)
  }

  /** `text.split("|")[:-1]`: the pieces with the last one dropped. */
  function DropLast(pieces: seq<string>): seq<string>
  {
    if pieces == [] then [] else pieces[..|pieces| - 1]
  }

  /** `filter(None, text.split("|"))`: the non-empty pieces, in order. */
  function NonEmpty(pieces: seq<string>): (r: seq<string>)
    ensures forall k :: 0 <= k < |r| ==> r[k] != ""
    decreases |pieces|
  {
    if pieces == [] then []
    else (if pieces[0] == "" then [] else [pieces[0]]) + NonEmpty(pieces[1..])
  }

  /** How the newest revision reads a vertex string: split on `|`, drop the last piece, parse each. */
  function ParseTrimmed(text: string): Result<seq<Entry>>
  {
    ParseAll(DropLast(Split(text, '|')))
  }

  /** How the older revisions read a vertex string: split on `|`, keep the non-empty pieces, parse each. */
  function ParseNonEmpty(text: string): Result<seq<Entry>>
  {
    ParseAll(NonEmpty(Split(text, '|')))
  }

  /** The influence names a vertex string mentions: `[x.split(":")[0] for x in text.split("|")]`. */
  function NamesIn(text: string): (r: seq<Name>)
    ensures |r| == |Split(text, '|')|
  {
    var pieces := Split(text, '|');
    seq(|pieces|, k requires 0 <= k < |pieces| => Split(pieces[k], ':')[0])
  }

  // ---------------------------------------------------------------------------
  // the round trip

  lemma EncodeAppend(es: seq<Entry>, e: Entry)
    ensures Encode(es + [e]) == Encode(es) + Piece(e) + "|"
  {
    assert (es + [e])[..|es|] == es;
  }

  /** The baked text, read from its front: the first piece, its terminator, then the rest. */
  lemma {:induction false} EncodeFront(e: Entry, es: seq<Entry>)
    ensures Encode([e] + es) == Piece(e) + "|" + Encode(es)
    decreases |es|
  {
    if es == [] {
      assert [e] + es == [e];
      assert [e][..0] == [];
    } else {
      var init, last := es[..|es| - 1], es[|es| - 1];
      EncodeFront(e, init);
      assert es == init + [last];
      EncodeFrontStep(e, init, last);
    }
  }

  /** One more entry at the back keeps the first piece at the front. */
  lemma EncodeFrontStep(e: Entry, init: seq<Entry>, last: Entry)
    requires Encode([e] + init) == Piece(e) + "|" + Encode(init)
    ensures Encode([e] + (init + [last])) == Piece(e) + "|" + Encode(init + [last])
  {
    assert [e] + (init + [last]) == ([e] + init) + [last];
    EncodeAppend([e] + init, last);
    EncodeAppend(init, last);
    Regroup(Piece(e) + "|", Encode(init), Piece(last));
  }

  /** Appending a terminated piece to `front + mid` is appending it to `mid`. */
  lemma Regroup(front: string, mid: string, piece: string)
    ensures front + mid + piece + "|" == front + (mid + piece + "|")
  {
  }

  /** The pieces of a list of entries, without their terminators. */
  function Pieces(es: seq<Entry>): (r: seq<string>)
    ensures |r| == |es| && forall k :: 0 <= k < |es| ==> r[k] == Piece(es[k])
  {
    seq(|es|, k requires 0 <= k < |es| => Piece(es[k]))
  }

  /** Splitting baked text on `|` gives each entry's piece and a trailing empty piece. */
  lemma {:induction false} SplitEncode(es: seq<Entry>)
    requires forall k :: 0 <= k < |es| ==> Bakeable(es[k].name)
    ensures Split(Encode(es), '|') == Pieces(es) + [""]
    decreases |es|
  {
    if es != [] {
      var e, rest := es[0], es[1..];
      var pr := Pieces(rest);
      assert Split(Encode(rest), '|') == pr + [""] by {
        forall k | 0 <= k < |rest| ensures Bakeable(rest[k].name) {
          assert rest[k] == es[k + 1];
        }
        SplitEncode(rest);
      }
      assert Split(Encode(es), '|') == [Piece(e)] + Split(Encode(rest), '|') by {
        assert es == [e] + rest;
        SplitEncodeStep(e, rest);
      }
      PiecesCons(es);
      assert [Piece(e)] + (pr + [""]) == ([Piece(e)] + pr) + [""];
    }
  }

  lemma PiecesCons(es: seq<Entry>)
    requires es != []
    ensures Pieces(es) == [Piece(es[0])] + Pieces(es[1..])
  {
  }

  lemma SplitEncodeStep(e: Entry, rest: seq<Entry>)
    requires Bakeable(e.name)
    ensures Split(Encode([e] + rest), '|') == [Piece(e)] + Split(Encode(rest), '|')
  {
    EncodeFront(e, rest);
    PieceFree(e, '|');
    assert Encode([e] + rest) == Piece(e) + ['|'] + Encode(rest);
    SplitHead(Piece(e), '|', Encode(rest));
  }

  lemma PieceFree(e: Entry, sep: char)
    requires sep !in e.name && sep != ':' && !IsDigit(sep)
    ensures sep !in Piece(e)
  {
    DigitsHaveNoSeparator(ShowNat(e.value), sep);
    assert Piece(e) == e.name + [':'] + ShowNat(e.value);
  }

  lemma DigitsHaveNoSeparator(s: string, sep: char)
    requires AllDigits(s) && !IsDigit(sep)
    ensures sep !in s
  {
    forall k | 0 <= k < |s| ensures s[k] != sep {
      assert IsDigit(s[k]);
    }
  }

  /** A piece of a bakeable name parses back to its entry. */
  lemma ParsePieceOfPiece(e: Entry)
    requires Bakeable(e.name)
    ensures ParsePiece(Piece(e)) == Ok(e)
  {
    DigitsHaveNoSeparator(ShowNat(e.value), ':');
    SplitHead(e.name, ':', ShowNat(e.value));
    SplitFree(ShowNat(e.value), ':');
    assert Split(Piece(e), ':') == [e.name, ShowNat(e.value)];
    ParseShowNat(e.value);
  }

  lemma ParseAllPieces(es: seq<Entry>)
    requires forall k :: 0 <= k < |es| ==> Bakeable(es[k].name)
    ensures ParseAll(Pieces(es)) == Ok(es)
  {
    var ps := Pieces(es);
    forall k | 0 <= k < |es| ensures ParsePiece(ps[k]) == Ok(es[k]) {
      ParsePieceOfPiece(es[k]);
    }
    var r := ParseAll(ps);
    assert r.Ok?;
    assert r.value == es;
  }

  lemma {:induction false} NonEmptyPieces(es: seq<Entry>)
    ensures NonEmpty(Pieces(es) + [""]) == Pieces(es)
    decreases |es|
  {
    if es == [] {
      assert NonEmpty([""]) == [] + NonEmpty([]);
    } else {
      NonEmptyPieces(es[1..]);
      assert (Pieces(es) + [""])[1..] == Pieces(es[1..]) + [""];
      assert Piece(es[0])[|es[0].name|] == ':';
      assert [Piece(es[0])] + Pieces(es[1..]) == Pieces(es);
    }
  }

  /** Both readers give back exactly the entries that were baked, when no name holds a separator. */
  lemma ParseEncode(es: seq<Entry>)
    requires forall k :: 0 <= k < |es| ==> Bakeable(es[k].name)
    ensures ParseTrimmed(Encode(es)) == Ok(es)
    ensures ParseNonEmpty(Encode(es)) == Ok(es)
  {
    SplitEncode(es);
    assert DropLast(Pieces(es) + [""]) == Pieces(es);
    NonEmptyPieces(es);
    ParseAllPieces(es);
  }

  /**
   * A name in a namespace (`ns:joint`) holds the `:` separator, so its baked
   * piece does not read back: the weight part becomes `joint`, which is not a number.
   */
  lemma NamespacedNameDoesNotRoundTrip()
    ensures ParsePiece(Piece(Entry("ns:j", 5))).Err?
  {
    var p := Piece(Entry("ns:j", 5));
    assert ShowNat(5) == "5";
    assert p == "ns" + [':'] + "j:5";
    SplitHead("ns", ':', "j:5");
    assert "j:5" == "j" + [':'] + "5";
    SplitHead("j", ':', "5");
    assert Split(p, ':')[1] == "j";
  }

  // ---------------------------------------------------------------------------
  // turning names back into columns

  /** The weight of the last entry with the given name, if any. */
  function Lookup(es: seq<Entry>, name: Name): Option<Weight>
    decreases |es|
  {
    if es == [] then None
    else if es[|es| - 1].name == name then Some(es[|es| - 1].value)
    else Lookup(es[..|es| - 1], name)
  }

  /**
   * `influences.index(name)` for every entry: each entry becomes a weight pair
   * on the column of its name in the current influence list; a name that is
   * not there is an error.
   */
  function ResolveByIndex(es: seq<Entry>, cur: seq<Name>): (r: Result<seq<WeightPair>>)
    ensures r.Ok? <==> forall k :: 0 <= k < |es| ==> es[k].name in cur
    ensures r.Ok? ==> |r.value| == |es| && InRange(r.value, |cur|)
    ensures r.Ok? ==> forall k :: 0 <= k < |es| ==>
      r.value[k] == WeightPair(IndexOf(cur, es[k].name).value, es[k].value)
    decreases |es|
  {
    if es == [] then Ok([])
    else
      var init, last := es[..|es| - 1], es[|es| - 1];
      match ResolveByIndex(init, cur)
      case Err(err) => Err(err)
      case Ok(ps) =>
        match IndexOf(cur, last.name)
        case None => Err(MissingInfluence(last.name))
        case Some(j) => Ok(ps + [WeightPair(j, last.value)])
  }

  /**
   * Placing resolved entries into a row: the column of a name in a list without
   * repeats receives the weight of the last entry with that name.
   */
  lemma {:induction false} LastAtResolved(es: seq<Entry>, cur: seq<Name>, name: Name)
    requires Distinct(cur) && name in cur
    requires ResolveByIndex(es, cur).Ok?
    ensures LastAt(ResolveByIndex(es, cur).value, IndexOf(cur, name).value) == Lookup(es, name)
    decreases |es|
  {
    if es != [] {
      var init, last := es[..|es| - 1], es[|es| - 1];
      LastAtResolved(init, cur, name);
      var ps := ResolveByIndex(init, cur).value;
      var j := IndexOf(cur, last.name).value;
      assert ResolveByIndex(es, cur).value == ps + [WeightPair(j, last.value)];
      LastAtAppend(ps, WeightPair(j, last.value), IndexOf(cur, name).value);
      if last.name != name {
        assert cur[j] != cur[IndexOf(cur, name).value];
      }
    }
  }
}
