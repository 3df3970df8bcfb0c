/**
  * Name similarity of functions/src/similarity.ts and functions/lib/similarity.js: the
  * table-filling Levenshtein distance, whitespace tokenisation, Jaccard similarity of token sets
  * and the two `combinedSimilarity` scores. Scores are exact rationals (`real`).
  */
module Similarity {
  import opened JsText
  import opened Edits
  import opened Normalize

  // ----- Levenshtein distance by dynamic programming -----

  /**
    * levenshteinDistance of functions/src/similarity.ts: row `i` of `matrix` holds the distances
    * from the first `i` characters of `b` to every prefix of `a`.
    */
  method Levenshtein(a: string, b: string) returns (d: nat)
    ensures d == EditDistance(a, b)
  {
    var matrix := new nat[|b| + 1, |a| + 1];
    for i := 0 to |b| + 1
      invariant forall r :: 0 <= r < i ==> matrix[r, 0] == r
    {
      matrix[i, 0] := i;
    }
    for j := 0 to |a| + 1
      invariant forall r :: 0 < r <= |b| ==> matrix[r, 0] == r
      invariant forall c :: 0 <= c < j ==> matrix[0, c] == c
    {
      matrix[0, j] := j;
    }
    for i := 1 to |b| + 1
      invariant RowsDone(matrix, a, b, i)
      invariant forall r :: i <= r <= |b| ==> matrix[r, 0] == r
    {
      FillRow(matrix, a, b, i);
    }
    d := matrix[|b|, |a|];
    TableIsEditDistance(a, b, |a|, |b|);
    assert a[..|a|] == a && b[..|b|] == b;
  }

  /**
    * The recurrence the table follows: the distance between the first `c` characters of `a`
    * and the first `r` characters of `b`.
    */
  function Table(a: string, b: string, c: nat, r: nat): nat
    requires c <= |a| && r <= |b|
    decreases c + r
  {
    if c == 0 then r
    else if r == 0 then c
    else if b[r - 1] == a[c - 1] then Table(a, b, c - 1, r - 1)
    else Best(Table(a, b, c - 1, r - 1), Table(a, b, c - 1, r), Table(a, b, c, r - 1), false)
  }

  /** Every entry of the table is the edit distance of the two prefixes. */
  lemma {:induction false} TableIsEditDistance(a: string, b: string, c: nat, r: nat)
    requires c <= |a| && r <= |b|
    ensures Table(a, b, c, r) == EditDistance(a[..c], b[..r])
    decreases c + r
  {
    if c > 0 && r > 0 {
      TableIsEditDistance(a, b, c - 1, r - 1);
      TableIsEditDistance(a, b, c - 1, r);
      TableIsEditDistance(a, b, c, r - 1);
      PrefixStep(a, b, c, r);
    }
  }

  /** The rows before `i` hold the table. */
  ghost predicate RowsDone(matrix: array2<nat>, a: string, b: string, i: nat)
    requires matrix.Length0 == |b| + 1 && matrix.Length1 == |a| + 1 && i <= |b| + 1
    reads matrix
  {
    forall r, c :: 0 <= r < i && 0 <= c <= |a| ==> matrix[r, c] == Table(a, b, c, r)
  }

  /** Fills row `i` of the table from row `i - 1` and its own first cell; later rows keep their first cell. */
  method FillRow(matrix: array2<nat>, a: string, b: string, i: nat)
    requires matrix.Length0 == |b| + 1 && matrix.Length1 == |a| + 1 && 1 <= i <= |b|
    requires RowsDone(matrix, a, b, i) && matrix[i, 0] == i
    modifies matrix
    ensures RowsDone(matrix, a, b, i + 1)
    ensures forall r :: i < r <= |b| ==> matrix[r, 0] == old(matrix[r, 0])
  {
    for j := 1 to |a| + 1
      invariant forall r, c :: 0 <= r <= |b| && r != i && 0 <= c <= |a| ==> matrix[r, c] == old(matrix[r, c])
      invariant forall c :: 0 <= c < j ==> matrix[i, c] == Table(a, b, c, i)
    {
      if b[i - 1] == a[j - 1] {
        matrix[i, j] := matrix[i - 1, j - 1];
      } else {
        matrix[i, j] := Best(matrix[i - 1, j - 1], matrix[i, j - 1], matrix[i - 1, j], false);
      }
    }
  }

  /**
    * levenshteinDistance of functions/lib/similarity.js: it answers directly when either string
    * is empty and otherwise fills the same table.
    */
  method LevenshteinLib(a: string, b: string) returns (d: nat)
    ensures d == EditDistance(a, b)
  {
    if |a| == 0 {
      return |b|;
    }
    if |b| == 0 {
      return |a|;
    }
    d := Levenshtein(a, b);
  }

  // ----- tokens and Jaccard similarity -----

  /** `text.split(/\s+/)`: the pieces between maximal whitespace runs, empty ones at the ends included. */
  function Tokenize(s: string): (ts: seq<string>)
    ensures |ts| >= 1
    decreases |s|
  {
    var n := Span(s, 0, NonSpace);
    if n == |s| then [s]
    else [s[..n]] + Tokenize(s[n + Span(s, n, Space)..])
  }

  /** The first character of words joined by spaces is the first character of the first word. */
  lemma JoinWordsStart(ws: seq<string>)
    requires ws != [] && IsWord(ws[0])
    ensures |JoinWords(ws)| > 0 && JoinWords(ws)[0] == ws[0][0]
  {
  }

  /** Splitting words joined by single spaces at whitespace gives the words back. */
  lemma {:induction false} TokenizeJoin(ws: seq<string>)
    requires ws != [] && forall k :: 0 <= k < |ws| ==> IsWord(ws[k])
    ensures Tokenize(JoinWords(ws)) == ws
  {
    if |ws| == 1 {
      TokenizeWord(ws[0], "");
    } else {
      JoinWordsStart(ws[1..]);
      TokenizeWord(ws[0], JoinWords(ws[1..]));
      TokenizeJoin(ws[1..]);
    }
  }

  /** A word alone is one token; a word, a space and a word-led rest split after the space. */
  lemma TokenizeWord(w: string, rest: string)
    requires IsWord(w)
    requires rest != [] ==> IsWordChar(rest[0])
    ensures rest == [] ==> Tokenize(w) == [w]
    ensures rest != [] ==> Tokenize(w + [' '] + rest) == [w] + Tokenize(rest)
  {
    var s := if rest == [] then w else w + [' '] + rest;
    assert AllIn(s, 0, |w|, NonSpace) by {
      forall k | 0 <= k < |w| ensures InClass(s[k], NonSpace) {
        assert s[k] == w[k] && InClass(w[k], WordChar);
        SpaceIsNotWordChar(w[k]);
      }
    }
    SpanExact(s, 0, |w|, NonSpace);
    if rest != [] {
      SpaceIsNotWordChar(rest[0]);
      SpanExact(s, |w|, 1, Space);
      assert s[..|w|] == w && s[|w| + 1..] == rest;
    }
  }

  /** A non-empty canonical name splits into exactly its words. */
  lemma TokenizeCanonical(t: string)
    requires Canonical(t) && t != ""
    ensures Tokenize(t) == Words(t)
  {
    CanonicalJoin(t);
    WordsAreWords(t);
    assert Words(t) != [] by {
      assert t[0] != ' ' && IsWordChar(t[0]);
    }
    TokenizeJoin(Words(t));
  }

  /** The set of distinct tokens. */
  function TokenSet(ts: seq<string>): set<string> {
    set t | t in ts
  }

  lemma {:induction false} SubsetCard(x: set<string>, y: set<string>)
    requires x <= y
    ensures |x| <= |y|
    decreases |x|
  {
    if x != {} {
      var e :| e in x;
      SubsetCard(x - {e}, y - {e});
    }
  }

  lemma SubsetSameCard(x: set<string>, y: set<string>)
    requires x <= y && |x| == |y|
    ensures x == y
  {
    if x != y {
      var e :| e in y && e !in x;
      SubsetCard(x, y - {e});
    }
  }

  /** jaccardSimilarity: shared distinct tokens over all distinct tokens, and 1 when there are none. */
  function Jaccard(xs: seq<string>, ys: seq<string>): (r: real)
    ensures 0.0 <= r <= 1.0
  {
    var both := TokenSet(xs) * TokenSet(ys);
    var all := TokenSet(xs) + TokenSet(ys);
    SubsetCard(both, all);
    if |all| == 0 then 1.0 else Ratio(|both|, |all|)
  }

  /** Jaccard similarity is symmetric, and is 1 exactly when both lists have the same tokens. */
  lemma JaccardProperties(xs: seq<string>, ys: seq<string>)
    ensures Jaccard(xs, ys) == Jaccard(ys, xs)
    ensures Jaccard(xs, ys) == 1.0 <==> TokenSet(xs) == TokenSet(ys)
  {
    var sx, sy := TokenSet(xs), TokenSet(ys);
    assert sx * sy == sy * sx && sx + sy == sy + sx;
    if |sx + sy| > 0 && Jaccard(xs, ys) == 1.0 {
      SubsetSameCard(sx * sy, sx + sy);
      assert sx == sy by {
        forall e | e in sx + sy ensures e in sx && e in sy {
          assert e in sx * sy;
        }
      }
    }
  }

  // ----- combined scores -----

  /** `x / y` for a non-negative count over a positive one. */
  function Ratio(x: nat, y: nat): (r: real)
    requires 0 < y
    ensures 0.0 <= r
    ensures x <= y ==> r <= 1.0
    ensures r == 1.0 <==> x == y
    ensures r == 0.0 <==> x == 0
  {
    var q := x as real / y as real;
    QuotientFacts(x as real, y as real, q);
    q
  }

  lemma QuotientFacts(x: real, y: real, q: real)
    requires 0.0 <= x && 0.0 < y && q == x / y
    ensures 0.0 <= q && (x <= y ==> q <= 1.0) && (q == 1.0 <==> x == y) && (q == 0.0 <==> x == 0.0)
  {
    assert q * y == x;
    if q > 1.0 {
      assert q * y > y;
    }
    if q < 1.0 {
      assert q * y < y;
    }
  }

  function Min(x: nat, y: nat): nat {
    if x <= y then x else y
  }

  /** `1 - distance / maxLen`, and 1 when both names are empty. */
  function NormalizedLevenshtein(x: string, y: string): (r: real)
    ensures 0.0 <= r <= 1.0
  {
    var maxLen := Max(|x|, |y|);
    if maxLen > 0 then 1.0 - Ratio(EditDistance(x, y), maxLen) else 1.0
  }

  /** The similarity is 1 exactly for equal strings, and does not depend on their order. */
  lemma NormalizedLevenshteinProperties(x: string, y: string)
    ensures NormalizedLevenshtein(x, y) == 1.0 <==> x == y
    ensures NormalizedLevenshtein(x, y) == NormalizedLevenshtein(y, x)
  {
    EditDistanceZero(x, y);
    EditDistanceSymmetric(x, y);
  }

  /** The score of a prefix match: 0.9 plus a tenth of the length ratio, below 1 for different lengths. */
  function PrefixScore(x: nat, y: nat): (r: real)
    requires x != y
    ensures 0.9 <= r < 1.0
  {
    0.9 + 0.1 * Ratio(Min(x, y), Max(x, y))
  }

  /** The weighted mix of token overlap and character similarity. */
  function Blend(jaccard: real, lev: real): (r: real)
    requires 0.0 <= jaccard <= 1.0 && 0.0 <= lev <= 1.0
    ensures 0.0 <= r <= 1.0
  {
    0.6 * jaccard + 0.4 * lev
  }

  /** combinedSimilarity of functions/lib/similarity.js: equal names score 1, others by their normal forms. */
  function CombinedLib(a: string, b: string): (r: real)
    requires IsAscii(a) && IsAscii(b)
    ensures 0.0 <= r <= 1.0
  {
    if a == b then 1.0 else LibScore(NormalizeLib(a), NormalizeLib(b))
  }

  /** The lib score of two normal forms `na` and `nb`. */
  function LibScore(na: string, nb: string): (r: real)
    ensures 0.0 <= r <= 1.0
  {
    if na == nb then 1.0
    else if nb <= na || na <= nb then PrefixScore(|na|, |nb|)
    else
      var lev := NormalizedLevenshtein(na, nb);
      var ta, tb := Tokenize(na), Tokenize(nb);
      if |ta| == 1 && |tb| == 1 then lev
      else Blend(Jaccard(ta, tb), lev)
  }

  /** combinedSimilarity of functions/src/similarity.ts: equal names score 1, others by their normal forms. */
  function CombinedTs(a: string, b: string): (r: real)
    requires IsAscii(a) && IsAscii(b)
    ensures 0.0 <= r <= 1.0
  {
    if a == b then 1.0 else TsScore(NormalizeTs(a), NormalizeTs(b))
  }

  /** The TS score of two normal forms: a prefix match is a flat 0.9. */
  function TsScore(na: string, nb: string): (r: real)
    ensures 0.0 <= r <= 1.0
  {
    if na == nb then 1.0
    else if nb <= na || na <= nb then 0.9
    else NormalizedLevenshtein(na, nb)
  }

  /** The lib score of normal forms is 1 exactly when they are equal, and does not depend on their order. */
  lemma LibScoreProperties(na: string, nb: string)
    ensures LibScore(na, nb) == 1.0 <==> na == nb
    ensures LibScore(na, nb) == LibScore(nb, na)
  {
    NormalizedLevenshteinProperties(na, nb);
    if na != nb {
      if nb <= na || na <= nb {
        assert PrefixScore(|na|, |nb|) == PrefixScore(|nb|, |na|);
      } else {
        JaccardProperties(Tokenize(na), Tokenize(nb));
      }
    }
  }

  /**
    * When one normal form is a proper prefix of the other, the lib score is
    * 0.9 + 0.1 * shorter / longer, in [0.9, 1); an empty normal form scores exactly 0.9.
    */
  lemma LibScorePrefix(na: string, nb: string)
    requires na != nb && na <= nb
    ensures LibScore(na, nb) == 0.9 + 0.1 * Ratio(|na|, |nb|)
    ensures 0.9 <= LibScore(na, nb) < 1.0
    ensures na == "" ==> LibScore(na, nb) == 0.9
  {
    assert Min(|na|, |nb|) == |na| && Max(|na|, |nb|) == |nb|;
  }

  /**
    * Otherwise two single-word names score their normalised Levenshtein similarity, and other
    * names 0.6 * Jaccard + 0.4 * that similarity, where the tokens of a normal form are its words.
    */
  lemma LibScoreOther(na: string, nb: string)
    requires Canonical(na) && Canonical(nb)
    requires !(nb <= na) && !(na <= nb)
    ensures var lev := 1.0 - Ratio(EditDistance(na, nb), Max(|na|, |nb|));
            LibScore(na, nb) ==
              if |Words(na)| == 1 && |Words(nb)| == 1 then lev
              else 0.6 * Jaccard(Words(na), Words(nb)) + 0.4 * lev
  {
    TokenizeCanonical(na);
    TokenizeCanonical(nb);
  }

  /** The lib score is 1 exactly when the names or their normal forms are equal, and is symmetric. */
  lemma CombinedLibProperties(a: string, b: string)
    requires IsAscii(a) && IsAscii(b)
    ensures CombinedLib(a, b) == 1.0 <==> a == b || NormalizeLib(a) == NormalizeLib(b)
    ensures CombinedLib(a, b) == CombinedLib(b, a)
  {
    LibScoreProperties(NormalizeLib(a), NormalizeLib(b));
  }

  /**
    * The TS score of normal forms is 1 exactly when they are equal; any prefix relation between
    * different ones gives exactly 0.9, and otherwise the score is the normalised Levenshtein
    * similarity, below 1. It does not depend on the order of the forms.
    */
  lemma TsScoreProperties(na: string, nb: string)
    ensures TsScore(na, nb) == 1.0 <==> na == nb
    ensures na != nb && (na <= nb || nb <= na) ==> TsScore(na, nb) == 0.9
    ensures !(na <= nb) && !(nb <= na) ==>
              TsScore(na, nb) == 1.0 - Ratio(EditDistance(na, nb), Max(|na|, |nb|)) && TsScore(na, nb) < 1.0
    ensures TsScore(na, nb) == TsScore(nb, na)
  {
    NormalizedLevenshteinProperties(na, nb);
  }

  /** The TS score is 1 exactly when the normal forms are equal, and is symmetric. */
  lemma CombinedTsProperties(a: string, b: string)
    requires IsAscii(a) && IsAscii(b)
    ensures CombinedTs(a, b) == 1.0 <==> NormalizeTs(a) == NormalizeTs(b)
    ensures CombinedTs(a, b) == CombinedTs(b, a)
  {
    TsScoreProperties(NormalizeTs(a), NormalizeTs(b));
  }
}
