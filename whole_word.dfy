/**
 * The keyword test both the sound selector and the transcript view build:
 * `new RegExp('\\b' + keyword + '\\b', 'gi')`, used through `test` and
 * `replace` (src/pages/Index.tsx:39-40, src/components/TranscriptionView.tsx:38-41
 * and 50-51). The keyword is read as literal text; matching ignores case
 * through `FoldChar`, and `\b` is the ASCII word boundary of a pattern without
 * the `u` flag.
 */
module WholeWord {
  import opened Types
  import opened Text

  /** Position `i` of `s` holds an ASCII word character (out of range: no). */
  predicate WordCharAt(s: string, i: int) {
    0 <= i < |s| && IsWordChar(s[i])
  }

  /** The `\b` assertion at position `i`: word-ness changes between `i - 1` and `i`. */
  predicate IsBoundary(s: string, i: int) {
    WordCharAt(s, i - 1) != WordCharAt(s, i)
  }

  /** `\bK\b` matches `s` starting at `i`, ignoring case. */
  predicate MatchesAt(k: string, s: string, i: int) {
    && 0 <= i && i + |k| <= |s|
    && IsBoundary(s, i)
    && Lower(s[i..i + |k|]) == Lower(k)
    && IsBoundary(s, i + |k|)
  }

  /**
   * The regular-expression engine's search: the least position at or after
   * `from` where the pattern matches, if any.
   */
  function FindMatch(k: string, s: string, from: nat): (r: Option<nat>)
    ensures r.Some? ==> from <= r.value && MatchesAt(k, s, r.value)
    ensures r.Some? ==> forall j :: from <= j < r.value ==> !MatchesAt(k, s, j)
    ensures r.None? ==> forall j :: from <= j ==> !MatchesAt(k, s, j)
    decreases |s| - from
  {
    if from + |k| > |s| then None
    else if MatchesAt(k, s, from) then Some(from)
    else FindMatch(k, s, from + 1)
  }

  /**
   * `regex.test(text)` on a freshly built `\bK\b` pattern with flags `gi`
   * (its `lastIndex` is 0): true exactly when the keyword occurs somewhere
   * as a whole word, ignoring case.
   */
  function WholeWordMatchCI(k: string, s: string): (b: bool)
    ensures b <==> exists i :: MatchesAt(k, s, i)
  {
    FindMatch(k, s, 0).Some?
  }

  /** A match begins and ends with characters of the same word-ness as the keyword's. */
  lemma MatchEnds(k: string, s: string, i: int)
    requires |k| > 0 && MatchesAt(k, s, i)
    ensures IsWordChar(s[i]) == IsWordChar(k[0])
    ensures IsWordChar(s[i + |k| - 1]) == IsWordChar(k[|k| - 1])
  {
    var w := s[i..i + |k|];
    LowerAt(w, 0);
    LowerAt(k, 0);
    LowerAt(w, |k| - 1);
    LowerAt(k, |k| - 1);
    assert w[0] == s[i] && w[|k| - 1] == s[i + |k| - 1];
  }

  /**
   * A keyword whose first character is an ASCII word character does not
   * match right after another ASCII word character, and symmetrically at its
   * end: an occurrence inside a longer ASCII word is no match.
   */
  lemma InsideWordNoMatch(k: string, s: string, i: int)
    requires |k| > 0 && 0 <= i && i + |k| <= |s|
    requires (IsWordChar(k[0]) && WordCharAt(s, i - 1))
          || (IsWordChar(k[|k| - 1]) && WordCharAt(s, i + |k|))
    ensures !MatchesAt(k, s, i)
  {
    if MatchesAt(k, s, i) {
      MatchEnds(k, s, i);
    }
  }

  /**
   * A keyword that ends in a character outside `[A-Za-z0-9_]` (an accented
   * letter, say) only matches where an ASCII word character follows it: it
   * never matches before a space, punctuation or the end of the text.
   */
  lemma NonWordEndNeedsWordAfter(k: string, s: string, i: int)
    requires |k| > 0 && !IsWordChar(k[|k| - 1])
    requires MatchesAt(k, s, i)
    ensures WordCharAt(s, i + |k|)
  {
    MatchEnds(k, s, i);
  }

  /** Symmetrically, a keyword starting outside `[A-Za-z0-9_]` needs an ASCII word character before it. */
  lemma NonWordStartNeedsWordBefore(k: string, s: string, i: int)
    requires |k| > 0 && !IsWordChar(k[0])
    requires MatchesAt(k, s, i)
    ensures WordCharAt(s, i - 1)
  {
    MatchEnds(k, s, i);
  }

  /**
   * A keyword that starts and ends with ASCII word characters matches where it
   * stands between non-word characters or the ends of the text.
   */
  lemma MatchBetween(before: string, k: string, after: string)
    requires |k| > 0 && IsWordChar(k[0]) && IsWordChar(k[|k| - 1])
    requires before == [] || !IsWordChar(before[|before| - 1])
    requires after == [] || !IsWordChar(after[0])
    ensures MatchesAt(k, before + k + after, |before|)
  {
    var s := before + k + after;
    assert s[|before|..|before| + |k|] == k;
    assert s[|before|] == k[0] && s[|before| + |k| - 1] == k[|k| - 1];
    if before != [] {
      assert s[|before| - 1] == before[|before| - 1];
    }
    if after != [] {
      assert s[|before| + |k|] == after[0];
    }
  }

  /** `"você"` never matches "você sabe": the accented end has no `\b` before the space. */
  lemma AccentedKeywordMissed()
    ensures !WholeWordMatchCI("você", "você sabe")
  {
    forall i | MatchesAt("você", "você sabe", i)
      ensures false
    {
      NonWordEndNeedsWordAfter("você", "você sabe", i);
    }
  }

  /** `"amento"` matches inside "orçamento": `ç` is no word character, so `\b` holds before the `a`. */
  lemma KeywordFoundInsideAccentedWord()
    ensures WholeWordMatchCI("amento", "o orçamento")
  {
    var s := "o orçamento";
    assert s[5..11] == "amento";
    assert MatchesAt("amento", s, 5);
  }

  /** `"prazo"` is not found in "prazos": the ASCII `s` extends the word. */
  lemma PrefixOfAsciiWordMissed()
    ensures !WholeWordMatchCI("prazo", "prazos")
  {
    var s := "prazos";
    forall i | MatchesAt("prazo", s, i)
      ensures false
    {
      if i == 0 {
        InsideWordNoMatch("prazo", s, 0);
      }
    }
  }

  /**
   * One piece of a text cut up by `replace`: text between matches, or a
   * matched occurrence (the original characters, in their original case).
   */
  datatype Piece = Plain(text: string) | Marked(text: string)

  /** The characters of the pieces, concatenated. */
  function Texts(ps: seq<Piece>): string {
    if ps == [] then [] else ps[0].text + Texts(ps[1..])
  }

  /** How many pieces are matched occurrences. */
  function MarkedCount(ps: seq<Piece>): nat {
    if ps == [] then 0 else (if ps[0].Marked? then 1 else 0) + MarkedCount(ps[1..])
  }

  lemma {:induction false} TextsAppend(a: seq<Piece>, b: seq<Piece>)
    ensures Texts(a + b) == Texts(a) + Texts(b)
    ensures MarkedCount(a + b) == MarkedCount(a) + MarkedCount(b)
  {
    if a == [] {
      assert a + b == b;
    } else {
      assert (a + b)[1..] == a[1..] + b;
      TextsAppend(a[1..], b);
    }
  }

  /** One piece holds the text it was made of. */
  lemma SinglePiece(t: string)
    ensures Texts([Plain(t)]) == t && MarkedCount([Plain(t)]) == 0
  {
    assert [Plain(t)][1..] == [];
  }

  /** Every matched piece spells the keyword, ignoring case. */
  predicate AllMarkedFold(ps: seq<Piece>, k: string) {
    forall i :: 0 <= i < |ps| && ps[i].Marked? ==> Lower(ps[i].text) == Lower(k)
  }

  /** The text and the count of a plain piece and a matched piece put in front of other pieces. */
  lemma PairTexts(before: string, found: string, rest: seq<Piece>)
    ensures Texts([Plain(before), Marked(found)] + rest) == before + found + Texts(rest)
    ensures MarkedCount([Plain(before), Marked(found)] + rest) == MarkedCount(rest) + 1
  {
    var pair := [Plain(before), Marked(found)];
    TextsAppend(pair, rest);
    assert pair[1..] == [Marked(found)];
    assert pair[1..][1..] == [];
  }

  /** A matched piece that spells the keyword keeps every matched piece spelling it. */
  lemma PairFold(before: string, found: string, rest: seq<Piece>, k: string)
    requires Lower(found) == Lower(k) && AllMarkedFold(rest, k)
    ensures AllMarkedFold([Plain(before), Marked(found)] + rest, k)
  {
    var ps := [Plain(before), Marked(found)] + rest;
    forall i | 0 <= i < |ps| && ps[i].Marked?
      ensures Lower(ps[i].text) == Lower(k)
    {
      if i >= 2 {
        assert ps[i] == rest[i - 2];
      }
    }
  }

  /** A text cut at two positions is the three parts in turn. */
  lemma SliceThree(s: string, a: nat, b: nat, c: nat)
    requires a <= b <= c <= |s|
    ensures s[a..] == s[a..b] + s[b..c] + s[c..]
  {
  }

  /** Gluing the text before a match and the match itself in front of the remaining pieces. */
  lemma GluePieces(before: string, found: string, after: string, rest: seq<Piece>, k: string)
    requires Texts(rest) == after && Lower(found) == Lower(k) && AllMarkedFold(rest, k)
    ensures Texts([Plain(before), Marked(found)] + rest) == before + found + after
    ensures AllMarkedFold([Plain(before), Marked(found)] + rest, k)
  {
    PairTexts(before, found, rest);
    PairFold(before, found, rest, k);
  }

  /** The text from `at` to a match at `p`, then the match, in front of the pieces of the text after it. */
  lemma GlueAt(k: string, s: string, at: nat, p: nat, rest: seq<Piece>)
    requires at <= p && p + |k| <= |s|
    requires Texts(rest) == s[p + |k|..] && AllMarkedFold(rest, k)
    requires Lower(s[p..p + |k|]) == Lower(k)
    ensures Texts([Plain(s[at..p]), Marked(s[p..p + |k|])] + rest) == s[at..]
    ensures AllMarkedFold([Plain(s[at..p]), Marked(s[p..p + |k|])] + rest, k)
  {
    GluePieces(s[at..p], s[p..p + |k|], s[p + |k|..], rest, k);
    SliceThree(s, at, p, p + |k|);
  }

  /**
   * Where pieces sit in `s` under a global `\bK\b` replace, read from offset
   * `at` with the engine searching from `from`: a matched piece starts at a
   * match at or after the search position, and a plain piece holds no match start at or after the search
   * position (the last piece also none at the very end, where an empty
   * keyword can match). After a match the search resumes at its end, or one
   * further when it was empty. So the matched pieces are exactly the
   * leftmost non-overlapping matches.
   */
  predicate Placed(k: string, s: string, ps: seq<Piece>, at: nat, from: nat)
    decreases |ps|
  {
    if ps == [] then true
    else
      var t := ps[0].text;
      && (ps[0].Marked? ==> from <= at && MatchesAt(k, s, at))
      && (ps[0].Plain? ==>
            forall j :: from <= j && at <= j && j < at + |t| + (if |ps| == 1 then 1 else 0) ==> !MatchesAt(k, s, j))
      && Placed(k, s, ps[1..], at + |t|,
                if ps[0].Plain? then from else if |k| == 0 then at + 1 else at + |t|)
  }

  /** The rest of the text as one plain piece, with no match start from the search position on, is placed. */
  lemma PlacedLast(k: string, s: string, at: nat, from: nat)
    requires at <= |s|
    requires forall j :: from <= j && at <= j && j <= |s| ==> !MatchesAt(k, s, j)
    ensures Placed(k, s, [Plain(s[at..])], at, from)
  {
    assert [Plain(s[at..])][1..] == [];
  }

  /**
   * The text from `at` to a match at `p`, without match starts from the search
   * position on, then the match, then pieces placed after it, are placed.
   */
  lemma PlacedPair(k: string, s: string, at: nat, p: nat, rest: seq<Piece>, from: nat)
    requires at <= p && from <= p && p + |k| <= |s|
    requires forall j :: from <= j && at <= j && j < p ==> !MatchesAt(k, s, j)
    requires MatchesAt(k, s, p)
    requires Placed(k, s, rest, p + |k|, if |k| == 0 then p + 1 else p + |k|)
    ensures Placed(k, s, [Plain(s[at..p]), Marked(s[p..p + |k|])] + rest, at, from)
  {
    var ps := [Plain(s[at..p]), Marked(s[p..p + |k|])] + rest;
    assert ps[1..] == [Marked(s[p..p + |k|])] + rest;
    assert ps[1..][1..] == rest;
  }

  /** Where the search finds its match: at or after the search position, inside the text. */
  lemma FoundBounds(k: string, s: string, pos: nat, p: nat)
    requires FindMatch(k, s, pos) == Some(p)
    ensures pos <= p && p + |k| <= |s|
  {
  }

  /** With no match from the search position, the rest of the text is one placed plain piece. */
  lemma NoneStep(k: string, s: string, pos: nat, copied: nat)
    requires copied <= pos && copied <= |s| && FindMatch(k, s, pos).None?
    ensures Texts([Plain(s[copied..])]) == s[copied..]
    ensures AllMarkedFold([Plain(s[copied..])], k)
    ensures Placed(k, s, [Plain(s[copied..])], copied, pos)
  {
    SinglePiece(s[copied..]);
    PlacedLast(k, s, copied, pos);
  }

  /**
   * With a match at `p`, the text before it and the match, in front of the
   * pieces after the match, spell the rest of the text and are placed.
   */
  lemma FoundStep(k: string, s: string, pos: nat, copied: nat, p: nat, rest: seq<Piece>)
    requires copied <= pos && FindMatch(k, s, pos) == Some(p)
    requires Texts(rest) == s[p + |k|..]
    requires AllMarkedFold(rest, k)
    requires Placed(k, s, rest, p + |k|, if |k| == 0 then p + 1 else p + |k|)
    ensures Texts([Plain(s[copied..p]), Marked(s[p..p + |k|])] + rest) == s[copied..]
    ensures AllMarkedFold([Plain(s[copied..p]), Marked(s[p..p + |k|])] + rest, k)
    ensures Placed(k, s, [Plain(s[copied..p]), Marked(s[p..p + |k|])] + rest, copied, pos)
  {
    assert MatchesAt(k, s, p);
    GlueAt(k, s, copied, p, rest);
    PlacedPair(k, s, copied, p, rest, pos);
  }

  /**
   * `s.replace(regex, f)` with a global regex, cut into pieces: from search
   * position `pos`, with the text from `copied` not yet emitted. A match at
   * `p` emits the text up to `p` and the matched text; the next search starts
   * after the match (one further on an empty match, as AdvanceStringIndex does).
   */
  function Occurrences(k: string, s: string, pos: nat, copied: nat): (ps: seq<Piece>)
    requires copied <= pos && copied <= |s|
    ensures Texts(ps) == s[copied..]
    ensures AllMarkedFold(ps, k)
    ensures Placed(k, s, ps, copied, pos)
    decreases |s| + 1 - pos
  {
    match FindMatch(k, s, pos)
    case None =>
      NoneStep(k, s, pos, copied);
      [Plain(s[copied..])]
    case Some(p) =>
      FoundBounds(k, s, pos, p);
      var rest := Occurrences(k, s, if |k| == 0 then p + 1 else p + |k|, p + |k|);
      FoundStep(k, s, pos, copied, p, rest);
      [Plain(s[copied..p]), Marked(s[p..p + |k|])] + rest
  }

  /** The pieces of a whole text under a `\bK\b` global replace. */
  function Split(k: string, s: string): (ps: seq<Piece>)
    ensures Texts(ps) == s
    ensures AllMarkedFold(ps, k)
    ensures Placed(k, s, ps, 0, 0)
  {
    Occurrences(k, s, 0, 0)
  }

  /** The pieces from a search position hold a match exactly when the search from there finds one. */
  lemma OccurrencesMarked(k: string, s: string, pos: nat, copied: nat)
    requires copied <= pos && copied <= |s|
    ensures MarkedCount(Occurrences(k, s, pos, copied)) == 0 <==> FindMatch(k, s, pos).None?
  {
    match FindMatch(k, s, pos)
    case None =>
      SinglePiece(s[copied..]);
    case Some(p) =>
      var rest := Occurrences(k, s, if |k| == 0 then p + 1 else p + |k|, p + |k|);
      PairTexts(s[copied..p], s[p..p + |k|], rest);
  }

  /** Some piece is a matched occurrence exactly when the keyword occurs as a whole word. */
  lemma SplitMarksIffMatch(k: string, s: string)
    ensures MarkedCount(Split(k, s)) == 0 <==> !WholeWordMatchCI(k, s)
  {
    OccurrencesMarked(k, s, 0, 0);
  }

  /** With no match the text stays in one plain piece. */
  lemma SplitNoMatch(k: string, s: string)
    requires !WholeWordMatchCI(k, s)
    ensures Split(k, s) == [Plain(s)]
  {
  }
}
