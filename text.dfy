/**
  * Character classes and string helpers with the meaning JavaScript gives them:
  * `\s`, `\d`, the word characters of `\b`, `String.prototype.trim`,
  * `String.prototype.split` on one character, and the words of a string.
  */
module JsText {

  datatype Option<T> = None | Some(value: T)

  /** JavaScript's `\s`, which is also the set `trim()` removes. */
  predicate IsSpace(c: char) {
    var n := c as int;
    n == 0x20 || (0x09 <= n <= 0x0D) || n == 0xA0 || n == 0x1680 || (0x2000 <= n <= 0x200A)
    || n == 0x2028 || n == 0x2029 || n == 0x202F || n == 0x205F || n == 0x3000 || n == 0xFEFF
  }

  /** JavaScript's `\d`. */
  predicate IsDigit(c: char) {
    '0' <= c <= '9'
  }

  predicate IsLowerAlpha(c: char) {
    'a' <= c <= 'z'
  }

  /** The characters `\b` counts as word characters: `[A-Za-z0-9_]`. */
  predicate IsWordChar(c: char) {
    IsDigit(c) || IsLowerAlpha(c) || ('A' <= c <= 'Z') || c == '_'
  }

  predicate IsAscii(s: string) {
    forall k :: 0 <= k < |s| ==> s[k] as int < 128
  }

  lemma SpaceIsNotWordChar(c: char)
    ensures IsSpace(c) ==> !IsWordChar(c)
  {
  }

  /** The classes of characters whose runs the scanners measure. */
  datatype CharClass =
    | Space          // `\s`
    | NonSpace       // `\S`
    | Digit          // `\d`
    | NonDigit       // `\D`
    | WordChar       // `\w`
    | NotChar(sep: char)

  predicate InClass(c: char, cls: CharClass) {
    match cls
    case Space => IsSpace(c)
    case NonSpace => !IsSpace(c)
    case Digit => IsDigit(c)
    case NonDigit => !IsDigit(c)
    case WordChar => IsWordChar(c)
    case NotChar(sep) => c != sep
  }

  /** Every character of `s[i..j]` is in `cls`. */
  predicate AllIn(s: string, i: nat, j: nat, cls: CharClass)
    requires i <= j <= |s|
  {
    forall k :: i <= k < j ==> InClass(s[k], cls)
  }

  /** Every character of `s` is in `cls`. */
  predicate AllOf(s: string, cls: CharClass) {
    forall k :: 0 <= k < |s| ==> InClass(s[k], cls)
  }

  /** Length of the run of `cls` characters that starts at `i`. */
  function Span(s: string, i: nat, cls: CharClass): (n: nat)
    requires i <= |s|
    ensures i + n <= |s|
    ensures i + n == |s| || !InClass(s[i + n], cls)
    decreases |s| - i
  {
    if i < |s| && InClass(s[i], cls) then 1 + Span(s, i + 1, cls) else 0
  }

  /** The run `Span` measures consists of `cls` characters. */
  lemma {:induction false} SpanAll(s: string, i: nat, cls: CharClass)
    requires i <= |s|
    ensures AllIn(s, i, i + Span(s, i, cls), cls)
    decreases |s| - i
  {
    if i < |s| && InClass(s[i], cls) {
      SpanAll(s, i + 1, cls);
    }
  }

  /** A run of exactly `n` characters of `cls` starts at `i`. */
  lemma {:induction false} SpanExact(s: string, i: nat, n: nat, cls: CharClass)
    requires i + n <= |s| && AllIn(s, i, i + n, cls)
    requires i + n == |s| || !InClass(s[i + n], cls)
    ensures Span(s, i, cls) == n
    decreases n
  {
    if n > 0 {
      assert InClass(s[i], cls);
      SpanExact(s, i + 1, n - 1, cls);
    }
  }

  /** Length of the run of `cls` characters that ends just before `e`. */
  function SpanBack(s: string, e: nat, cls: CharClass): (n: nat)
    requires e <= |s|
    ensures n <= e && AllIn(s, e - n, e, cls)
    ensures n == e || !InClass(s[e - n - 1], cls)
  {
    if e > 0 && InClass(s[e - 1], cls) then 1 + SpanBack(s, e - 1, cls) else 0
  }

  /** A run of exactly `n` characters of `cls` ends at `e`. */
  lemma {:induction false} SpanBackExact(s: string, e: nat, n: nat, cls: CharClass)
    requires n <= e <= |s| && AllIn(s, e - n, e, cls)
    requires n == e || !InClass(s[e - n - 1], cls)
    ensures SpanBack(s, e, cls) == n
    decreases n
  {
    if n > 0 {
      assert InClass(s[e - 1], cls);
      SpanBackExact(s, e - 1, n - 1, cls);
    }
  }

  /** ASCII `toLowerCase` of one character. */
  function LowerChar(c: char): char {
    if 'A' <= c <= 'Z' then (c as int + 32) as char else c
  }

  /** `toLowerCase()`, exact on ASCII text. */
  function Lower(s: string): (r: string)
    ensures |r| == |s|
  {
    seq(|s|, k requires 0 <= k < |s| => LowerChar(s[k]))
  }

  /** Lower-casing twice is lower-casing once. */
  lemma LowerIdempotent(s: string)
    ensures Lower(Lower(s)) == Lower(s)
  {
    forall k | 0 <= k < |s| ensures Lower(Lower(s))[k] == Lower(s)[k] {
      assert Lower(s)[k] == LowerChar(s[k]);
    }
  }

  /** Lower-casing keeps ASCII text ASCII, and leaves no upper-case letter. */
  lemma LowerAscii(s: string)
    ensures IsAscii(s) ==> IsAscii(Lower(s))
    ensures forall k :: 0 <= k < |s| ==> !('A' <= Lower(s)[k] <= 'Z')
  {
  }

  function TrimEnd(s: string): (r: string)
    ensures |r| <= |s| && r == s[..|r|]
    ensures forall k :: |r| <= k < |s| ==> IsSpace(s[k])
    ensures r == [] || !IsSpace(r[|r| - 1])
  {
    if s != [] && IsSpace(s[|s| - 1]) then TrimEnd(s[..|s| - 1]) else s
  }

  /** `trim()`: the slice of `s` left after removing whitespace at both ends. */
  function Trim(s: string): (r: string)
    ensures Span(s, 0, Space) + |r| <= |s|
    ensures r == s[Span(s, 0, Space)..Span(s, 0, Space) + |r|]
    ensures forall k :: Span(s, 0, Space) + |r| <= k < |s| ==> IsSpace(s[k])
    ensures r == [] || (!IsSpace(r[0]) && !IsSpace(r[|r| - 1]))
  {
    var a := Span(s, 0, Space);
    TrimEnd(s[a..])
  }

  /** Trimming keeps every character class the text was made of. */
  lemma TrimKeeps(s: string, cls: CharClass)
    requires AllOf(s, cls)
    ensures AllOf(Trim(s), cls)
  {
    var r := Trim(s);
    var a := Span(s, 0, Space);
    forall k | 0 <= k < |r| ensures InClass(r[k], cls) {
      assert r[k] == s[a + k];
    }
  }

  /** `s.split(sep)` for a one-character separator: every piece, empty ones included. */
  function SplitOn(s: string, sep: char): (parts: seq<string>)
    ensures |parts| >= 1
    ensures forall k :: 0 <= k < |parts| ==> sep !in parts[k]
    decreases |s|
  {
    var n := Span(s, 0, NotChar(sep));
    assert sep !in s[..n] by {
      SpanAll(s, 0, NotChar(sep));
      forall k | 0 <= k < n ensures s[..n][k] != sep {
        assert InClass(s[k], NotChar(sep));
      }
    }
    if n == |s| then [s] else [s[..n]] + SplitOn(s[n + 1..], sep)
  }

  /** `parts.join(sep)`. */
  function JoinWith(parts: seq<string>, sep: char): string
    requires |parts| >= 1
  {
    if |parts| == 1 then parts[0] else parts[0] + [sep] + JoinWith(parts[1..], sep)
  }

  /** Splitting on a character and joining with it again gives back the text. */
  lemma {:induction false} SplitJoin(s: string, sep: char)
    ensures JoinWith(SplitOn(s, sep), sep) == s
    decreases |s|
  {
    var n := Span(s, 0, NotChar(sep));
    if n < |s| {
      var tail := SplitOn(s[n + 1..], sep);
      var parts := SplitOn(s, sep);
      assert parts == [s[..n]] + tail;
      assert parts[0] == s[..n] && parts[1..] == tail;
      SplitJoin(s[n + 1..], sep);
      assert JoinWith(parts, sep) == s[..n] + [sep] + s[n + 1..];
      assert s[n] == sep;
      SplitAt(s, n);
    }
  }

  /** Joining lines that hold no separator and splitting again gives back the lines. */
  lemma {:induction false} SplitOfJoin(parts: seq<string>, sep: char)
    requires |parts| >= 1 && forall k :: 0 <= k < |parts| ==> sep !in parts[k]
    ensures SplitOn(JoinWith(parts, sep), sep) == parts
    decreases |parts|
  {
    var s := JoinWith(parts, sep);
    var p := parts[0];
    assert s[..|p|] == p;
    assert AllIn(s, 0, |p|, NotChar(sep)) by {
      forall k | 0 <= k < |p| ensures InClass(s[k], NotChar(sep)) {
        assert s[k] == p[k];
      }
    }
    if |parts| == 1 {
      SpanExact(s, 0, |p|, NotChar(sep));
    } else {
      var rest := JoinWith(parts[1..], sep);
      assert s == p + [sep] + rest;
      assert s[|p|] == sep;
      SpanExact(s, 0, |p|, NotChar(sep));
      assert s[|p| + 1..] == rest;
      SplitOfJoin(parts[1..], sep);
      assert parts == [p] + parts[1..];
    }
  }

  lemma SplitAt(s: string, n: nat)
    requires n < |s|
    ensures s == s[..n] + [s[n]] + s[n + 1..]
  {
  }

  /** A non-empty run of word characters. */
  predicate IsWord(w: string) {
    |w| > 0 && AllOf(w, WordChar)
  }

  /** The maximal runs of word characters of `s`, in order. */
  function Words(s: string): (ws: seq<string>)
    decreases |s|
  {
    if s == [] then []
    else if !IsWordChar(s[0]) then Words(s[1..])
    else
      var n := Span(s, 0, WordChar);
      [s[..n]] + Words(s[n..])
  }

  /** Words joined by single spaces. */
  function JoinWords(ws: seq<string>): string {
    if ws == [] then "" else if |ws| == 1 then ws[0] else ws[0] + " " + JoinWords(ws[1..])
  }

  /** Every element of `Words(s)` is a word. */
  lemma {:induction false} WordsAreWords(s: string)
    ensures forall k :: 0 <= k < |Words(s)| ==> IsWord(Words(s)[k])
    decreases |s|
  {
    if s != [] {
      if !IsWordChar(s[0]) {
        WordsAreWords(s[1..]);
      } else {
        var n := Span(s, 0, WordChar);
        SpanWordRun(s, 0);
        WordsOfRun(s, 0, n);
        assert s[0..] == s && s[0..n] == s[..n];
        WordsAreWords(s[n..]);
      }
    }
  }

  lemma {:induction false} WordsOfGap(s: string)
    requires forall k :: 0 <= k < |s| ==> !IsWordChar(s[k])
    ensures Words(s) == []
    decreases |s|
  {
    if s != [] {
      WordsOfGap(s[1..]);
    }
  }

  /** Words of a word followed by anything that starts with a non-word character. */
  lemma WordsOfWordThen(w: string, t: string)
    requires IsWord(w)
    requires t == [] || !IsWordChar(t[0])
    ensures Words(w + t) == [w] + Words(t)
  {
    var s := w + t;
    assert AllIn(s, 0, |w|, WordChar) by {
      forall k | 0 <= k < |w| ensures InClass(s[k], WordChar) {
        assert s[k] == w[k];
      }
    }
    assert |w| < |s| ==> s[|w|] == t[0];
    SpanExact(s, 0, |w|, WordChar);
    assert s[..|w|] == w && s[|w|..] == t;
  }

  lemma SliceCons(s: string, k: nat, e: nat)
    requires k < e <= |s|
    ensures s[k..e] == [s[k]] + s[k + 1..e]
  {
  }

  /** `s[i..e]` is a non-empty run of word characters that cannot be extended to the right. */
  predicate WordRun(s: string, i: nat, e: nat) {
    && i < e <= |s|
    && AllIn(s, i, e, WordChar)
    && (e == |s| || !IsWordChar(s[e]))
  }

  lemma SpanWordRun(s: string, i: nat)
    requires i < |s| && IsWordChar(s[i])
    ensures WordRun(s, i, i + Span(s, i, WordChar))
  {
    SpanAll(s, i, WordChar);
  }

  /** The words of `s[i..]` when a word run `s[i..e]` starts at `i`. */
  lemma WordsOfRun(s: string, i: nat, e: nat)
    requires WordRun(s, i, e)
    ensures IsWord(s[i..e]) && Words(s[i..]) == [s[i..e]] + Words(s[e..])
  {
    var w := s[i..e];
    assert IsWord(w) by {
      forall j | 0 <= j < |w| ensures InClass(w[j], WordChar) {
        assert w[j] == s[i + j];
      }
    }
    assert s[i..] == w + s[e..];
    WordsOfWordThen(w, s[e..]);
  }

  /** Dropping a prefix of non-word characters does not change the words. */
  lemma {:induction false} WordsDropGap(s: string, k: nat)
    requires k <= |s|
    requires forall j :: 0 <= j < k ==> !IsWordChar(s[j])
    ensures Words(s) == Words(s[k..])
    decreases k
  {
    if k > 0 {
      WordsDropGap(s[1..], k - 1);
      assert s[1..][k - 1..] == s[k..];
    }
  }

  lemma WordsSkip(c: char, t: string)
    requires !IsWordChar(c)
    ensures Words([c] + t) == Words(t)
  {
    assert ([c] + t)[1..] == t;
  }

  /** Words distribute over a concatenation that meets at a non-word character. */
  lemma {:induction false} WordsAppend(a: string, b: string)
    requires a == [] || b == [] || !IsWordChar(a[|a| - 1]) || !IsWordChar(b[0])
    ensures Words(a + b) == Words(a) + Words(b)
    decreases |a|
  {
    if a == [] {
      assert a + b == b;
    } else if b == [] {
      assert a + b == a;
    } else if !IsWordChar(a[0]) {
      WordsAppend(a[1..], b);
      assert (a + b)[1..] == a[1..] + b;
    } else {
      WordsAppendWord(a, b);
    }
  }

  lemma {:induction false} WordsAppendWord(a: string, b: string)
    requires a != [] && b != [] && IsWordChar(a[0])
    requires !IsWordChar(a[|a| - 1]) || !IsWordChar(b[0])
    ensures Words(a + b) == Words(a) + Words(b)
    decreases |a|, 0
  {
    var n := Span(a, 0, WordChar);
    SpanWordRun(a, 0);
    WordsOfRun(a, 0, n);
    var w, rest := a[0..n], a[n..];
    assert a[0..] == a && a == w + rest;
    assert InClass(a[n - 1], WordChar);
    assert a + b == w + (rest + b);
    assert (rest + b)[0] == if rest == [] then b[0] else a[n];
    WordsAppend(rest, b);
    WordsOfWordThen(w, rest + b);
    ConsAssocWords(w, Words(rest), Words(b));
  }

  lemma ConsAssocWords(w: string, x: seq<string>, y: seq<string>)
    ensures [w] + (x + y) == ([w] + x) + y
  {
  }

  /** Joining words with single spaces and splitting the result into words gives them back. */
  lemma {:induction false} WordsOfJoin(ws: seq<string>)
    requires forall k :: 0 <= k < |ws| ==> IsWord(ws[k])
    ensures Words(JoinWords(ws)) == ws
  {
    if ws == [] {
    } else if |ws| == 1 {
      WordsOfWordThen(ws[0], []);
      assert ws[0] + [] == ws[0];
    } else {
      var rest := JoinWords(ws[1..]);
      WordsOfJoin(ws[1..]);
      assert JoinWords(ws) == ws[0] + ([' '] + rest);
      WordsOfWordThen(ws[0], [' '] + rest);
      WordsSkip(' ', rest);
    }
  }
}
