/** The `%name|param%` markup in story texts, as the pattern `/%([^%]*)%/g` finds it. */
module Markup {
  import opened Text

  /** A piece of a text as the pattern `/%([^%]*)%/g` cuts it: plain text, or the capture of one match. */
  datatype Piece = Lit(text: string) | Tag(capture: string)

  /**
   * The matches of `/%([^%]*)%/g` from left to right: each match runs from a `%` to the
   * next `%`; a `%` with no partner after it stays plain text.
   */
  function Pieces(s: string): (r: seq<Piece>)
    ensures |r| >= 1
    decreases |s|
  {
    var i := IndexOf(s, '%');
    if i == |s| then [Lit(s)]
    else
      var after := s[i + 1..];
      var j := IndexOf(after, '%');
      if j == |after| then [Lit(s)]
      else [Lit(s[..i]), Tag(after[..j])] + Pieces(after[j + 1..])
  }

  /** The text the pieces were cut from. */
  function Unparse(pieces: seq<Piece>): string
  {
    if pieces == [] then ""
    else (match pieces[0] case Lit(t) => t case Tag(c) => "%" + c + "%") + Unparse(pieces[1..])
  }

  lemma UnparseMatch(x: string, c: string, rest: seq<Piece>)
    ensures Unparse([Lit(x), Tag(c)] + rest) == x + ("%" + c + "%" + Unparse(rest))
  {
    var ps := [Lit(x), Tag(c)] + rest;
    assert ps[1..] == [Tag(c)] + rest;
    assert ps[1..][1..] == rest;
  }

  /** The pieces of a text whose first `%` at `i` has a partner `j` characters after it. */
  lemma PiecesMatch(s: string, i: nat, after: string, j: nat)
    requires i == IndexOf(s, '%') && i < |s| && after == s[i + 1..] && j == IndexOf(after, '%') && j < |after|
    ensures Pieces(s) == [Lit(s[..i]), Tag(after[..j])] + Pieces(after[j + 1..])
  {
  }

  /** A text around a match is the part before it, the match with its two `%`, and the part after it. */
  lemma Reassemble(s: string, i: nat, j: nat)
    requires i < |s| && s[i] == '%'
    requires j < |s[i + 1..]| && s[i + 1..][j] == '%'
    ensures s == s[..i] + ("%" + s[i + 1..][..j] + "%" + s[i + 1..][j + 1..])
  {
    var after := s[i + 1..];
    assert after == after[..j] + "%" + after[j + 1..];
    assert s == s[..i] + "%" + after;
  }

  /** Cutting a text into pieces loses nothing: putting them back together gives the text. */
  lemma {:induction false} UnparsePieces(s: string)
    ensures Unparse(Pieces(s)) == s
    decreases |s|
  {
    var i := IndexOf(s, '%');
    if i < |s| && IndexOf(s[i + 1..], '%') < |s[i + 1..]| {
      var after := s[i + 1..];
      var j := IndexOf(after, '%');
      var rest := after[j + 1..];
      PiecesMatch(s, i, after, j);
      UnparsePieces(rest);
      UnparseMatch(s[..i], after[..j], Pieces(rest));
      Reassemble(s, i, j);
    } else {
      assert Pieces(s) == [Lit(s)];
      assert Unparse([Lit(s)]) == s + Unparse([]);
    }
  }

  /** Whether no capture among the pieces holds a `%`. */
  predicate Clean(ps: seq<Piece>)
  {
    forall k :: 0 <= k < |ps| && ps[k].Tag? ==> '%' !in ps[k].capture
  }

  lemma CleanConcat(a: seq<Piece>, b: seq<Piece>)
    requires Clean(a) && Clean(b)
    ensures Clean(a + b)
  {
    forall k | 0 <= k < |a + b| && (a + b)[k].Tag?
      ensures '%' !in (a + b)[k].capture
    {
      if k >= |a| {
        assert (a + b)[k] == b[k - |a|];
      }
    }
  }

  /** No capture holds a `%`: each match ends at the first `%` after its start. */
  lemma {:induction false} PiecesCaptures(s: string)
    ensures Clean(Pieces(s))
    decreases |s|
  {
    var i := IndexOf(s, '%');
    if i < |s| {
      var after := s[i + 1..];
      var j := IndexOf(after, '%');
      if j < |after| {
        var rest := after[j + 1..];
        IndexOfFirst(after, '%');
        PiecesCaptures(rest);
        PiecesMatch(s, i, after, j);
        CleanConcat([Lit(s[..i]), Tag(after[..j])], Pieces(rest));
      }
    }
  }

  /** A text without `%` is a single plain piece. */
  lemma PiecesPlain(s: string)
    requires '%' !in s
    ensures Pieces(s) == [Lit(s)]
  {
    IndexOfAbsent(s, '%');
  }

  /** At most one `%`: none follows the first one. */
  predicate Lone(t: string)
  {
    IndexOf(t, '%') < |t| ==> '%' !in t[IndexOf(t, '%') + 1..]
  }

  /**
   * The shape of a leftmost, non-overlapping cut: plain pieces and captures alternate,
   * starting and ending with plain text; no plain piece but the last holds a `%`, and the
   * last holds at most one, which no later `%` closes.
   */
  predicate Shaped(ps: seq<Piece>)
  {
    && |ps| % 2 == 1
    && (forall k :: 0 <= k < |ps| ==> (ps[k].Lit? <==> k % 2 == 0))
    && (forall k :: 0 <= k < |ps| - 1 && ps[k].Lit? ==> '%' !in ps[k].text)
    && Lone(ps[|ps| - 1].text)
  }

  /** A plain piece and a capture in front of a shaped cut keep it shaped, and only those do. */
  lemma ShapedCons(a: string, c: string, rest: seq<Piece>)
    ensures Shaped([Lit(a), Tag(c)] + rest) <==> '%' !in a && Shaped(rest)
  {
    var ps := [Lit(a), Tag(c)] + rest;
    assert forall k :: 2 <= k < |ps| ==> ps[k] == rest[k - 2];
    if Shaped(ps) {
      assert ps[0] == Lit(a) && |ps| > 1;
      assert |rest| % 2 == 1;
      assert ps[|ps| - 1] == rest[|rest| - 1];
      forall k | 0 <= k < |rest| ensures rest[k].Lit? <==> k % 2 == 0 {
        assert rest[k] == ps[k + 2];
      }
      forall k | 0 <= k < |rest| - 1 && rest[k].Lit? ensures '%' !in rest[k].text {
        assert rest[k] == ps[k + 2];
      }
    }
    if '%' !in a && Shaped(rest) {
      assert ps[0] == Lit(a) && ps[1] == Tag(c);
      assert |ps| % 2 == 1;
      assert ps[|ps| - 1] == rest[|rest| - 1];
      forall k | 0 <= k < |ps| ensures ps[k].Lit? <==> k % 2 == 0 {
        if k >= 2 { assert ps[k] == rest[k - 2]; }
      }
      forall k | 0 <= k < |ps| - 1 && ps[k].Lit? ensures '%' !in ps[k].text {
        if k >= 2 { assert ps[k] == rest[k - 2]; }
      }
    }
  }

  /** `/%([^%]*)%/g` cuts a text leftmost-first into non-overlapping matches. */
  lemma {:induction false} PiecesShape(s: string)
    ensures Shaped(Pieces(s))
    decreases |s|
  {
    var i := IndexOf(s, '%');
    IndexOfFirst(s, '%');
    if i == |s| {
      assert s[..i] == s;
    } else {
      var after := s[i + 1..];
      var j := IndexOf(after, '%');
      IndexOfFirst(after, '%');
      if j == |after| {
        assert after[..j] == after;
      } else {
        var rest := after[j + 1..];
        PiecesShape(rest);
        PiecesMatch(s, i, after, j);
        ShapedCons(s[..i], after[..j], Pieces(rest));
      }
    }
  }

  /**
   * The cut is the only one of its kind: any shaped sequence of pieces whose captures hold
   * no `%` and which reassembles to a text is that text's cut.
   */
  lemma {:induction false} PiecesUnique(ps: seq<Piece>, s: string)
    requires Shaped(ps) && Clean(ps) && Unparse(ps) == s
    ensures Pieces(s) == ps
    decreases |ps|
  {
    if |ps| == 1 {
      assert ps[0].Lit?;
      assert s == ps[0].text by { assert Unparse(ps) == ps[0].text + Unparse([]); }
      PiecesLone(s);
    } else {
      var a, c, rest := ps[0].text, ps[1].capture, ps[2..];
      assert ps == [Lit(a), Tag(c)] + rest;
      ShapedCons(a, c, rest);
      assert Clean(rest) by {
        forall k | 0 <= k < |rest| && rest[k].Tag? ensures '%' !in rest[k].capture {
          assert rest[k] == ps[k + 2];
        }
      }
      UnparseMatch(a, c, rest);
      PiecesUnique(rest, Unparse(rest));
      PiecesCons(a, c, Unparse(rest));
    }
  }

  /** A text with at most one `%` is a single plain piece. */
  lemma PiecesLone(s: string)
    requires Lone(s)
    ensures Pieces(s) == [Lit(s)]
  {
    var i := IndexOf(s, '%');
    if i < |s| {
      assert '%' !in s[i + 1..];
      IndexOfAbsent(s[i + 1..], '%');
    }
  }

  /** The first match of `a%c%tail`, with no `%` in `a` or `c`, captures `c`. */
  lemma PiecesCons(a: string, c: string, tail: string)
    requires '%' !in a && '%' !in c
    ensures Pieces(a + ("%" + c + "%" + tail)) == [Lit(a), Tag(c)] + Pieces(tail)
  {
    var after := c + ['%'] + tail;
    var s := a + ['%'] + after;
    assert a + ("%" + c + "%" + tail) == s;
    IndexOfAfter(a, '%', after);
    IndexOfAfter(c, '%', tail);
    assert s[|a| + 1..] == after;
    assert after[..|c|] == c && after[|c| + 1..] == tail;
    assert s[..|a|] == a;
    PiecesMatch(s, |a|, after, |c|);
  }

  /** A text holding one match between `%`-free parts cuts into those three pieces. */
  lemma PiecesOne(a: string, c: string, b: string)
    requires '%' !in a && '%' !in c && '%' !in b
    ensures Pieces(a + ("%" + c + "%" + b)) == [Lit(a), Tag(c), Lit(b)]
  {
    PiecesCons(a, c, b);
    PiecesPlain(b);
    assert [Lit(a), Tag(c)] + [Lit(b)] == [Lit(a), Tag(c), Lit(b)];
  }
}
