/**
  * Product-name normalisation, functions/src/normalize.ts and functions/lib/normalize.js.
  *
  * Each regular-expression `replace(..., "g")` of the source is a left-to-right scanner over
  * the ORIGINAL string: at position `i` it either matches (the match is replaced by one space
  * and scanning resumes after it) or copies `s[i]` and moves on.  `\b` looks at the original
  * string, so the scanners take the whole string and an index rather than a suffix.
  */
module Normalize {
  import opened JsText

  /** Unit vocabulary of functions/src/normalize.ts ("pack" included), in alternation order. */
  const TsUnits: seq<string> :=
    ["kg", "g", "gm", "grams", "l", "lt", "litre", "liter", "ml", "pcs", "piece", "pieces", "pkt", "pack"]

  /** Unit vocabulary of functions/lib/normalize.js (no "pack"). */
  const LibUnits: seq<string> :=
    ["kg", "g", "gm", "grams", "l", "lt", "litre", "liter", "ml", "pcs", "piece", "pieces", "pkt"]

  /** A non-empty run of lower-case letters. */
  predicate IsLowerWord(u: string) {
    |u| > 0 && forall j :: 0 <= j < |u| ==> IsLowerAlpha(u[j])
  }

  /** Every unit is a non-empty run of lower-case letters. */
  predicate UnitsWellFormed(units: seq<string>) {
    forall k :: 0 <= k < |units| ==> IsLowerWord(units[k])
  }

  /** Both vocabularies consist of non-empty lower-case words. */
  lemma VocabulariesWellFormed()
    ensures UnitsWellFormed(TsUnits) && UnitsWellFormed(LibUnits)
  {
    forall k | 0 <= k < |TsUnits| ensures IsLowerWord(TsUnits[k]) {
    }
    forall k | 0 <= k < |LibUnits| ensures IsLowerWord(LibUnits[k]) {
    }
  }

  /** `\b` between `s[i-1]` and `s[i]`. */
  predicate Boundary(s: string, i: nat)
    requires i <= |s|
  {
    (i > 0 && IsWordChar(s[i - 1])) != (i < |s| && IsWordChar(s[i]))
  }

  /** `u` occurs in `s` at position `k`. */
  predicate MatchesAt(s: string, k: nat, u: string) {
    k + |u| <= |s| && forall j :: 0 <= j < |u| ==> s[k + j] == u[j]
  }

  /** `(u1|u2|...)\b` at position `k`: the first alternative, in order, that matches and is followed by `\b`. */
  function UnitAt(s: string, k: nat, units: seq<string>): (m: Option<nat>)
    requires k <= |s|
    ensures m.Some? ==> k + m.value <= |s| && Boundary(s, k + m.value)
    decreases |units|
  {
    if units == [] then None
    else if MatchesAt(s, k, units[0]) && Boundary(s, k + |units[0]|) then Some(|units[0]|)
    else UnitAt(s, k, units[1..])
  }

  /** The whitespace allowed between the number and the unit. */
  datatype Gap =
    | AnySpace   // `\s*`  (functions/src/normalize.ts)
    | SomeSpace  // `\s+`  (first pass of functions/lib/normalize.js)
    | NoSpace    // nothing (second pass of functions/lib/normalize.js)

  /**
    * Length of the match of `\b\d+(\.\d+)?<gap>(units)\b` at position `i`, if any.
    * Backtracking never yields a different match here: a shorter digit or space run leaves a
    * digit or a space where the next part needs a `.` or the letter that starts a unit.
    */
  function QuantityAt(s: string, i: nat, units: seq<string>, gap: Gap): (m: Option<nat>)
    requires i <= |s|
    ensures m.Some? ==> 0 < m.value && i + m.value <= |s| && IsDigit(s[i])
                        && Boundary(s, i) && Boundary(s, i + m.value)
  {
    if i < |s| && IsDigit(s[i]) && Boundary(s, i) then
      match UnitStart(s, FractionEnd(s, i + Span(s, i, Digit)), gap)
      case None => None
      case Some(k) =>
        match UnitAt(s, k, units)
        case None => None
        case Some(n) => Some(k + n - i)
    else None
  }

  /** Where the unit must start once the number ends at `j`, if the gap allows one at all. */
  function UnitStart(s: string, j: nat, gap: Gap): (k: Option<nat>)
    requires j <= |s|
    ensures k.Some? ==> j <= k.value <= |s|
  {
    var w := Span(s, j, Space);
    match gap
    case AnySpace => Some(j + w)
    case SomeSpace => if w == 0 then None else Some(j + w)
    case NoSpace => Some(j)
  }

  /** End of the optional `(\.\d+)` that may start at `j`. */
  function FractionEnd(s: string, j: nat): (r: nat)
    requires j <= |s|
    ensures j <= r <= |s|
  {
    if j + 1 < |s| && s[j] == '.' && IsDigit(s[j + 1]) then j + 1 + Span(s, j + 1, Digit) else j
  }

  /** `s.replace(/\b\d+(\.\d+)?<gap>(units)\b/g, " ")`, scanning from `i`. */
  function StripQuantities(s: string, i: nat, units: seq<string>, gap: Gap): (r: string)
    requires i <= |s|
    ensures |r| <= |s| - i
    decreases |s| - i
  {
    if i == |s| then ""
    else match QuantityAt(s, i, units, gap)
      case Some(n) => " " + StripQuantities(s, i + n, units, gap)
      case None => [s[i]] + StripQuantities(s, i + 1, units, gap)
  }

  /** `s.replace(/[^a-z0-9\s]/g, " ")`: one space per removed character, so neighbours never fuse. */
  function ReplacePunctuation(s: string): (r: string)
    ensures |r| == |s|
    ensures AllKept(r)
    ensures forall k :: 0 <= k < |s| && KeptChar(s[k]) ==> r[k] == s[k]
    ensures forall k :: 0 <= k < |s| && !KeptChar(s[k]) ==> r[k] == ' '
  {
    seq(|s|, k requires 0 <= k < |s| => if KeptChar(s[k]) then s[k] else ' ')
  }

  /** The characters `[a-z0-9\s]` the punctuation pass keeps. */
  predicate KeptChar(c: char) {
    IsLowerAlpha(c) || IsDigit(c) || IsSpace(c)
  }

  predicate AllKept(s: string) {
    forall k :: 0 <= k < |s| ==> KeptChar(s[k])
  }

  /** `\b(units)\b` at position `i`. */
  function UnitWordAt(s: string, i: nat, units: seq<string>): (m: Option<nat>)
    requires i <= |s|
    requires UnitsWellFormed(units)
    ensures m.Some? ==> 0 < m.value
  {
    UnitAtWord(s, i, units);
    if Boundary(s, i) then UnitAt(s, i, units) else None
  }

  /** `s.replace(/\b(units)\b/g, " ")`, scanning from `i`. */
  function StripUnitWords(s: string, i: nat, units: seq<string>): (r: string)
    requires i <= |s|
    requires UnitsWellFormed(units)
    ensures |r| <= |s| - i
    decreases |s| - i
  {
    if i == |s| then ""
    else match UnitWordAt(s, i, units)
      case Some(n) => " " + StripUnitWords(s, i + n, units)
      case None => [s[i]] + StripUnitWords(s, i + 1, units)
  }

  /** `s.replace(/\s+/g, " ")`. */
  function CollapseSpaces(s: string): (r: string)
    ensures |r| <= |s|
    decreases |s|
  {
    if s == [] then ""
    else if IsSpace(s[0]) then " " + CollapseSpaces(s[Span(s, 0, Space)..])
    else [s[0]] + CollapseSpaces(s[1..])
  }

  /** The steps both versions share after their quantity passes. */
  function Finish(p: string, units: seq<string>): string
    requires UnitsWellFormed(units)
  {
    Trim(CollapseSpaces(StripUnitWords(ReplacePunctuation(p), 0, units)))
  }

  /**
    * normalizeProductName of functions/src/normalize.ts: the result is canonical (lower-case
    * letters, digits and single inner spaces) and none of its words is a unit, "pack" included.
    */
  function NormalizeTs(raw: string): (r: string)
    requires IsAscii(raw)
    ensures raw == "" ==> r == ""
    ensures Canonical(r)
    ensures forall k :: 0 <= k < |Words(r)| ==> Words(r)[k] !in TsUnits
  {
    if raw == "" then ""
    else
      var lowered := Lower(raw);
      VocabulariesWellFormed();
      var p := StripQuantities(lowered, 0, TsUnits, AnySpace);
      FinishByWords(p, TsUnits);
      Finish(p, TsUnits)
  }

  /** normalizeProductName of functions/lib/normalize.js: the same shape, with its own units. */
  function NormalizeLib(raw: string): (r: string)
    requires IsAscii(raw)
    ensures raw == "" ==> r == ""
    ensures Canonical(r)
    ensures forall k :: 0 <= k < |Words(r)| ==> Words(r)[k] !in LibUnits
  {
    if raw == "" then ""
    else
      var p := LibQuantities(Lower(raw));
      VocabulariesWellFormed();
      FinishByWords(p, LibUnits);
      Finish(p, LibUnits)
  }

  /** The two quantity passes of functions/lib/normalize.js: with whitespace, then without. */
  function LibQuantities(lowered: string): string {
    var spaced := StripQuantities(lowered, 0, LibUnits, SomeSpace);
    StripQuantities(spaced, 0, LibUnits, NoSpace)
  }

  /**
    * "pack" is not a unit of functions/lib/normalize.js: a word "pack" left by the quantity
    * passes survives normalisation, while functions/src/normalize.ts never outputs it.
    */
  lemma PackOnlyInLib(raw: string)
    requires IsAscii(raw) && raw != ""
    ensures "pack" in Words(ReplacePunctuation(LibQuantities(Lower(raw)))) ==> "pack" in Words(NormalizeLib(raw))
    ensures "pack" !in Words(NormalizeTs(raw))
  {
    VocabulariesWellFormed();
    var p := LibQuantities(Lower(raw));
    FinishByWords(p, LibUnits);
    assert "pack" !in LibUnits;
    if "pack" in Words(ReplacePunctuation(p)) {
      RemoveUnitsKeeps(Words(ReplacePunctuation(p)), LibUnits, "pack");
    }
    assert "pack" in TsUnits;
  }

  /** Both normalisers lower-case first, so they cannot tell `raw` from its lower-case form. */
  lemma NormalizeIgnoresCase(raw: string)
    requires IsAscii(raw)
    ensures IsAscii(Lower(raw))
    ensures NormalizeTs(Lower(raw)) == NormalizeTs(raw)
    ensures NormalizeLib(Lower(raw)) == NormalizeLib(raw)
  {
    LowerAscii(raw);
    LowerIdempotent(raw);
  }

  /** Lower-case words, none of them a unit. */
  predicate PlainWords(ws: seq<string>, units: seq<string>) {
    ws != [] && forall k :: 0 <= k < |ws| ==> IsLowerWord(ws[k]) && ws[k] !in units
  }

  /**
    * A name whose lower-case form is plain words joined by single spaces is normalised to that
    * form by both versions: nothing in it is a quantity, punctuation, a unit or extra space.
    */
  lemma NormalizePlain(raw: string, ws: seq<string>)
    requires IsAscii(raw) && PlainWords(ws, TsUnits) && Lower(raw) == JoinWords(ws)
    ensures NormalizeTs(raw) == JoinWords(ws) && NormalizeLib(raw) == JoinWords(ws)
  {
    var t := JoinWords(ws);
    JoinLowerWords(ws);
    VocabulariesWellFormed();
    forall k | 0 <= k < |ws| ensures IsWord(ws[k]) {
      assert forall j :: 0 <= j < |ws[k]| ==> InClass(ws[k][j], WordChar);
    }
    WordsOfJoin(ws);
    StripQuantitiesNoDigits(t, TsUnits, AnySpace);
    StripQuantitiesNoDigits(t, LibUnits, SomeSpace);
    StripQuantitiesNoDigits(t, LibUnits, NoSpace);
    assert ReplacePunctuation(t) == t;
    assert LibUnits == TsUnits[..13];
    RemoveUnitsNone(ws, TsUnits);
    RemoveUnitsNone(ws, LibUnits);
    FinishByWords(t, TsUnits);
    FinishByWords(t, LibUnits);
  }

  /** Lower-case words joined by single spaces hold only lower-case letters and spaces. */
  lemma {:induction false} JoinLowerWords(ws: seq<string>)
    requires forall k :: 0 <= k < |ws| ==> IsLowerWord(ws[k])
    ensures forall j :: 0 <= j < |JoinWords(ws)| ==> IsLowerAlpha(JoinWords(ws)[j]) || JoinWords(ws)[j] == ' '
    ensures ws != [] ==> JoinWords(ws) != []
  {
    if |ws| > 1 {
      JoinLowerWords(ws[1..]);
      var t := JoinWords(ws);
      assert t == ws[0] + " " + JoinWords(ws[1..]);
      forall j | 0 <= j < |t| ensures IsLowerAlpha(t[j]) || t[j] == ' ' {
        if j > |ws[0]| {
          assert t[j] == JoinWords(ws[1..])[j - |ws[0]| - 1];
        }
      }
    }
  }

  /** Removing units from words none of which is a unit changes nothing. */
  lemma {:induction false} RemoveUnitsNone(ws: seq<string>, units: seq<string>)
    requires forall k :: 0 <= k < |ws| ==> ws[k] !in units
    ensures RemoveUnits(ws, units) == ws
  {
    if ws != [] {
      RemoveUnitsNone(ws[1..], units);
    }
  }

  /** The words of `ws` that are not units, in order. */
  function RemoveUnits(ws: seq<string>, units: seq<string>): (r: seq<string>)
    ensures |r| <= |ws|
    ensures forall k :: 0 <= k < |r| ==> r[k] !in units && r[k] in ws
  {
    if ws == [] then [] else (if ws[0] in units then [] else [ws[0]]) + RemoveUnits(ws[1..], units)
  }

  /** Every word that is not a unit stays. */
  lemma {:induction false} RemoveUnitsKeeps(ws: seq<string>, units: seq<string>, w: string)
    requires w in ws && w !in units
    ensures w in RemoveUnits(ws, units)
  {
    if ws[0] != w {
      assert w in ws[1..];
      RemoveUnitsKeeps(ws[1..], units, w);
    }
  }

  lemma RemoveUnitsCons(w: string, ws: seq<string>, units: seq<string>)
    ensures RemoveUnits([w] + ws, units) == (if w in units then [] else [w]) + RemoveUnits(ws, units)
  {
    assert ([w] + ws)[1..] == ws;
  }


  // ----- unit matching -----

  lemma UnitIsLowerWord(units: seq<string>, u: string)
    requires UnitsWellFormed(units) && u in units
    ensures IsLowerWord(u)
  {
    var j :| 0 <= j < |units| && units[j] == u;
  }

  lemma UnitsTail(units: seq<string>)
    requires UnitsWellFormed(units) && units != []
    ensures UnitsWellFormed(units[1..])
  {
    forall j | 0 <= j < |units| - 1 ensures IsLowerWord(units[1..][j]) {
      assert units[1..][j] == units[j + 1];
    }
  }

  /** A lower-case unit found in the text is a run of word characters there. */
  lemma MatchedWord(s: string, k: nat, u: string)
    requires IsLowerWord(u) && MatchesAt(s, k, u)
    ensures AllIn(s, k, k + |u|, WordChar)
  {
    forall j | k <= j < k + |u| ensures InClass(s[j], WordChar) {
      assert s[k + (j - k)] == u[j - k];
    }
  }

  /** Two runs of word characters from `k` that both end at `\b` are the same run. */
  lemma SameWordRun(s: string, k: nat, a: nat, b: nat)
    requires 0 < a && 0 < b && k + a <= |s| && k + b <= |s|
    requires AllIn(s, k, k + a, WordChar) && AllIn(s, k, k + b, WordChar)
    requires Boundary(s, k + a) && Boundary(s, k + b)
    ensures a == b
  {
    assert InClass(s[k + a - 1], WordChar) && InClass(s[k + b - 1], WordChar);
    SpanExact(s, k, a, WordChar);
    SpanExact(s, k, b, WordChar);
  }

  /** What `(units)\b` matches is one of the units. */
  lemma {:induction false} UnitAtIsUnit(s: string, k: nat, units: seq<string>)
    requires k <= |s|
    ensures UnitAt(s, k, units).Some? ==> s[k..k + UnitAt(s, k, units).value] in units
    decreases |units|
  {
    if units != [] {
      var u := units[0];
      if MatchesAt(s, k, u) && Boundary(s, k + |u|) {
        assert s[k..k + |u|] == u by {
          forall j | 0 <= j < |u| ensures s[k..k + |u|][j] == u[j] {
            assert s[k + j] == u[j];
          }
        }
      } else {
        UnitAtIsUnit(s, k, units[1..]);
      }
    }
  }

  /** What `(units)\b` matches is a non-empty run of word characters. */
  lemma {:induction false} UnitAtWord(s: string, k: nat, units: seq<string>)
    requires UnitsWellFormed(units) && k <= |s|
    ensures UnitAt(s, k, units).Some? ==>
              0 < UnitAt(s, k, units).value && AllIn(s, k, k + UnitAt(s, k, units).value, WordChar)
    decreases |units|
  {
    if units != [] {
      var u := units[0];
      if MatchesAt(s, k, u) && Boundary(s, k + |u|) {
        MatchedWord(s, k, u);
      } else {
        UnitsTail(units);
        UnitAtWord(s, k, units[1..]);
      }
    }
  }

  /** A unit followed by `\b` is always found, whatever its place in the alternation. */
  lemma {:induction false} UnitAtFinds(s: string, k: nat, units: seq<string>, u: string)
    requires UnitsWellFormed(units) && u in units
    requires k <= |s| && MatchesAt(s, k, u) && Boundary(s, k + |u|)
    ensures UnitAt(s, k, units) == Some(|u|)
    decreases |units|
  {
    var u0 := units[0];
    if MatchesAt(s, k, u0) && Boundary(s, k + |u0|) {
      UnitIsLowerWord(units, u0);
      UnitIsLowerWord(units, u);
      MatchedWord(s, k, u0);
      MatchedWord(s, k, u);
      SameWordRun(s, k, |u0|, |u|);
    } else {
      assert u != u0;
      assert u in units[1..];
      UnitsTail(units);
      UnitAtFinds(s, k, units[1..], u);
    }
  }

  /** A unit match starts at a word character. */
  lemma UnitAtStartsWord(s: string, i: nat, units: seq<string>)
    requires UnitsWellFormed(units) && i <= |s|
    ensures UnitAt(s, i, units).Some? ==> i < |s| && IsWordChar(s[i])
  {
    UnitAtWord(s, i, units);
    if UnitAt(s, i, units).Some? {
      assert InClass(s[i], WordChar);
    }
  }

  /** A unit match covers exactly the word run that starts where it does. */
  lemma UnitAtWholeWord(s: string, i: nat, e: nat, units: seq<string>)
    requires UnitsWellFormed(units) && WordRun(s, i, e)
    ensures UnitAt(s, i, units).Some? ==> UnitAt(s, i, units).value == e - i
  {
    UnitAtWord(s, i, units);
    var m := UnitAt(s, i, units);
    if m.Some? {
      assert InClass(s[e - 1], WordChar);
      SameWordRun(s, i, m.value, e - i);
    }
  }

  /** At the start of a word that is a unit, `\b(units)\b` matches the whole word. */
  lemma UnitWordAtUnit(s: string, i: nat, e: nat, units: seq<string>)
    requires UnitsWellFormed(units) && WordRun(s, i, e)
    requires i == 0 || !IsWordChar(s[i - 1])
    requires s[i..e] in units
    ensures UnitWordAt(s, i, units) == Some(e - i)
  {
    assert InClass(s[i], WordChar) && InClass(s[e - 1], WordChar);
    assert Boundary(s, i) && Boundary(s, e);
    var u := s[i..e];
    assert MatchesAt(s, i, u) by {
      forall j | 0 <= j < |u| ensures s[i + j] == u[j] { }
    }
    UnitAtFinds(s, i, units, u);
  }

  /** At the start of a word that is not a unit, `\b(units)\b` does not match. */
  lemma UnitWordAtNonUnit(s: string, i: nat, e: nat, units: seq<string>)
    requires UnitsWellFormed(units) && WordRun(s, i, e)
    requires s[i..e] !in units
    ensures UnitWordAt(s, i, units) == None
  {
    UnitAtWholeWord(s, i, e, units);
    UnitAtIsUnit(s, i, units);
  }

  // ----- quantity matching -----

  /** Whether a gap kind accepts a whitespace run of length `w`. */
  predicate GapAccepts(gap: Gap, w: nat) {
    match gap
    case AnySpace => true
    case SomeSpace => w > 0
    case NoSpace => w == 0
  }

  /**
    * A quantity that stands on its own is matched whole: digits `[i, j0)`, an optional fraction
    * (`.` then digits) `[j0, j1)`, whitespace `[j1, j2)` the gap accepts and a unit `u` at `j2`,
    * with `\b` at both ends.
    */
  lemma QuantityMatched(s: string, i: nat, j0: nat, j1: nat, j2: nat, units: seq<string>, u: string, gap: Gap)
    requires UnitsWellFormed(units) && u in units
    requires i < j0 <= j1 <= j2 && MatchesAt(s, j2, u)
    requires AllIn(s, i, j0, Digit)
    requires j1 == j0 || (j0 + 1 < j1 && s[j0] == '.' && AllIn(s, j0 + 1, j1, Digit))
    requires AllIn(s, j1, j2, Space) && GapAccepts(gap, j2 - j1)
    requires Boundary(s, i) && Boundary(s, j2 + |u|)
    ensures QuantityAt(s, i, units, gap) == Some(j2 + |u| - i)
  {
    UnitIsLowerWord(units, u);
    assert s[j2 + 0] == u[0];
    assert InClass(s[i], Digit);
    QuantityUnitStart(s, i, j0, j1, j2, gap);
    QuantityUnitFound(s, i, j2, units, u, gap);
  }

  /**
    * Conversely, whatever is matched has that shape: digits `[i, j0)`, an optional fraction
    * `[j0, j1)`, whitespace `[j1, j2)` the gap accepts and one of the units at `j2`, ending the match.
    */
  lemma QuantityAtShape(s: string, i: nat, units: seq<string>, gap: Gap)
    requires i <= |s| && QuantityAt(s, i, units, gap).Some?
    ensures exists j0: nat, j1: nat, j2: nat, u: string ::
              u in units && i < j0 <= j1 <= j2 && MatchesAt(s, j2, u)
              && AllIn(s, i, j0, Digit)
              && (j1 == j0 || (j0 + 1 < j1 && s[j0] == '.' && AllIn(s, j0 + 1, j1, Digit)))
              && AllIn(s, j1, j2, Space) && GapAccepts(gap, j2 - j1)
              && i + QuantityAt(s, i, units, gap).value == j2 + |u|
  {
    var j0 := i + Span(s, i, Digit);
    DigitRunShape(s, i);
    var j1 := FractionEnd(s, j0);
    FractionShape(s, j0);
    var j2 := UnitStart(s, j1, gap).value;
    GapShape(s, j1, gap);
    var u := UnitShape(s, j2, units);
    assert i + QuantityAt(s, i, units, gap).value == j2 + |u|;
  }

  /** The digit run a quantity starts with. */
  lemma DigitRunShape(s: string, i: nat)
    requires i < |s| && IsDigit(s[i])
    ensures i < i + Span(s, i, Digit) && AllIn(s, i, i + Span(s, i, Digit), Digit)
  {
    assert InClass(s[i], Digit);
    SpanAll(s, i, Digit);
  }

  /** The optional fraction: nothing, or `.` and a digit run. */
  lemma FractionShape(s: string, j0: nat)
    requires j0 <= |s|
    ensures var j1 := FractionEnd(s, j0);
      j1 == j0 || (j0 + 1 < j1 && s[j0] == '.' && AllIn(s, j0 + 1, j1, Digit))
  {
    if FractionEnd(s, j0) != j0 {
      assert InClass(s[j0 + 1], Digit);
      SpanAll(s, j0 + 1, Digit);
    }
  }

  /** The whitespace before the unit is of a length the gap accepts. */
  lemma GapShape(s: string, j1: nat, gap: Gap)
    requires j1 <= |s| && UnitStart(s, j1, gap).Some?
    ensures AllIn(s, j1, UnitStart(s, j1, gap).value, Space)
    ensures GapAccepts(gap, UnitStart(s, j1, gap).value - j1)
  {
    SpanAll(s, j1, Space);
  }

  /** The text the unit alternation matches is one of the units, occurring there. */
  lemma UnitShape(s: string, k: nat, units: seq<string>) returns (u: string)
    requires k <= |s| && UnitAt(s, k, units).Some?
    ensures u in units && MatchesAt(s, k, u) && |u| == UnitAt(s, k, units).value
  {
    UnitAtIsUnit(s, k, units);
    u := s[k..k + UnitAt(s, k, units).value];
  }

  lemma QuantityUnitFound(s: string, i: nat, k: nat, units: seq<string>, u: string, gap: Gap)
    requires UnitsWellFormed(units) && u in units
    requires i < k <= |s| && MatchesAt(s, k, u)
    requires IsDigit(s[i]) && Boundary(s, i) && Boundary(s, k + |u|)
    requires UnitStart(s, FractionEnd(s, i + Span(s, i, Digit)), gap) == Some(k)
    ensures QuantityAt(s, i, units, gap) == Some(k + |u| - i)
  {
    UnitAtFinds(s, k, units, u);
    QuantityAtFound(s, i, units, gap, k, |u|);
  }

  /** Digits, an optional fraction and whitespace the gap accepts put the unit at `j2`. */
  lemma QuantityUnitStart(s: string, i: nat, j0: nat, j1: nat, j2: nat, gap: Gap)
    requires i < j0 <= j1 <= j2 < |s| && IsLowerAlpha(s[j2])
    requires AllIn(s, i, j0, Digit)
    requires j1 == j0 || (j0 + 1 < j1 && s[j0] == '.' && AllIn(s, j0 + 1, j1, Digit))
    requires AllIn(s, j1, j2, Space) && GapAccepts(gap, j2 - j1)
    ensures UnitStart(s, FractionEnd(s, i + Span(s, i, Digit)), gap) == Some(j2)
  {
    QuantityDigits(s, i, j0, j1, j2);
    QuantityFraction(s, j0, j1, j2);
    UnitStartAfterSpaces(s, j1, j2, gap);
  }

  lemma UnitStartAfterSpaces(s: string, j1: nat, j2: nat, gap: Gap)
    requires j1 <= j2 < |s| && !IsSpace(s[j2])
    requires AllIn(s, j1, j2, Space) && GapAccepts(gap, j2 - j1)
    ensures UnitStart(s, j1, gap) == Some(j2)
  {
    SpanExact(s, j1, j2 - j1, Space);
  }

  /**
    * A digit run followed by a character that is neither a digit, `.`, whitespace nor a word
    * character (a `-`, say) never starts a quantity.
    */
  lemma QuantityBlocked(s: string, i: nat, j: nat, units: seq<string>, gap: Gap)
    requires UnitsWellFormed(units)
    requires i < j < |s| && AllIn(s, i, j, Digit)
    requires s[j] != '.' && !IsSpace(s[j]) && !IsWordChar(s[j])
    ensures QuantityAt(s, i, units, gap) == None
  {
    SpanExact(s, i, j - i, Digit);
    SpanExact(s, j, 0, Space);
    UnitAtStartsWord(s, j, units);
  }

  lemma QuantityAtFound(s: string, i: nat, units: seq<string>, gap: Gap, k: nat, n: nat)
    requires i < |s| && IsDigit(s[i]) && Boundary(s, i)
    requires UnitStart(s, FractionEnd(s, i + Span(s, i, Digit)), gap) == Some(k)
    requires UnitAt(s, k, units) == Some(n)
    ensures QuantityAt(s, i, units, gap) == Some(k + n - i)
  {
  }

  lemma QuantityDigits(s: string, i: nat, j0: nat, j1: nat, j2: nat)
    requires i < j0 <= j1 <= j2 < |s| && IsLowerAlpha(s[j2])
    requires AllIn(s, i, j0, Digit)
    requires j1 == j0 || s[j0] == '.'
    requires AllIn(s, j1, j2, Space)
    ensures i + Span(s, i, Digit) == j0
  {
    assert j0 < j2 ==> j1 > j0 || InClass(s[j1], Space);
    SpanExact(s, i, j0 - i, Digit);
  }

  lemma QuantityFraction(s: string, j0: nat, j1: nat, j2: nat)
    requires j0 <= j1 <= j2 < |s| && IsLowerAlpha(s[j2])
    requires j1 == j0 || (j0 + 1 < j1 && s[j0] == '.' && AllIn(s, j0 + 1, j1, Digit))
    requires AllIn(s, j1, j2, Space)
    ensures FractionEnd(s, j0) == j1
  {
    assert j1 < j2 ==> InClass(s[j1], Space);
    if j1 > j0 {
      assert InClass(s[j0 + 1], Digit);
      SpanExact(s, j0 + 1, j1 - j0 - 1, Digit);
    } else {
      assert s[j0] != '.';
    }
  }

  /** The quantity pass copies a stretch without digits unchanged. */
  lemma {:induction false} StripQuantitiesCopies(s: string, i: nat, j: nat, units: seq<string>, gap: Gap)
    requires i <= j <= |s|
    requires forall t :: i <= t < j ==> !IsDigit(s[t])
    ensures StripQuantities(s, i, units, gap) == s[i..j] + StripQuantities(s, j, units, gap)
    decreases j - i
  {
    if i < j {
      StripQuantitiesCopies(s, i + 1, j, units, gap);
      SliceCons(s, i, j);
      ConsAssoc(s[i], s[i + 1..j], StripQuantities(s, j, units, gap));
    }
  }

  /** A quantity standing on its own, as `QuantityMatched` describes it, becomes a single space. */
  lemma QuantityRemoved(s: string, i: nat, j0: nat, j1: nat, j2: nat, units: seq<string>, u: string, gap: Gap)
    requires UnitsWellFormed(units) && u in units
    requires i < j0 <= j1 <= j2 && MatchesAt(s, j2, u)
    requires AllIn(s, i, j0, Digit)
    requires j1 == j0 || (j0 + 1 < j1 && s[j0] == '.' && AllIn(s, j0 + 1, j1, Digit))
    requires AllIn(s, j1, j2, Space) && GapAccepts(gap, j2 - j1)
    requires Boundary(s, i) && Boundary(s, j2 + |u|)
    ensures StripQuantities(s, i, units, gap) == " " + StripQuantities(s, j2 + |u|, units, gap)
  {
    QuantityMatched(s, i, j0, j1, j2, units, u, gap);
    StripQuantitiesReplaces(s, i, j2 + |u|, units, gap);
  }

  /** A matched quantity becomes a single space. */
  lemma StripQuantitiesReplaces(s: string, i: nat, e: nat, units: seq<string>, gap: Gap)
    requires i < e <= |s| && QuantityAt(s, i, units, gap) == Some(e - i)
    ensures StripQuantities(s, i, units, gap) == " " + StripQuantities(s, e, units, gap)
  {
  }

  /** Text without digits passes the quantity pass unchanged. */
  lemma StripQuantitiesNoDigits(s: string, units: seq<string>, gap: Gap)
    requires forall t :: 0 <= t < |s| ==> !IsDigit(s[t])
    ensures StripQuantities(s, 0, units, gap) == s
  {
    StripQuantitiesCopies(s, 0, |s|, units, gap);
  }

  // ----- the unit-word pass works word by word -----

  lemma ConsAssoc(c: char, a: string, b: string)
    ensures [c] + (a + b) == ([c] + a) + b
  {
  }

  /** Inside a word there is no `\b`, so the pass copies the rest of the word. */
  lemma {:induction false} StripUnitWordsInsideWord(s: string, k: nat, e: nat, units: seq<string>)
    requires UnitsWellFormed(units) && 0 < k <= e <= |s|
    requires AllIn(s, k - 1, e, WordChar)
    ensures StripUnitWords(s, k, units) == s[k..e] + StripUnitWords(s, e, units)
    decreases e - k
  {
    if k < e {
      assert InClass(s[k - 1], WordChar) && InClass(s[k], WordChar);
      assert !Boundary(s, k);
      assert UnitWordAt(s, k, units) == None;
      var rest := StripUnitWords(s, k + 1, units);
      assert StripUnitWords(s, k, units) == [s[k]] + rest;
      StripUnitWordsInsideWord(s, k + 1, e, units);
      SliceCons(s, k, e);
      ConsAssoc(s[k], s[k + 1..e], StripUnitWords(s, e, units));
    }
  }

  /** At a non-word character the pass copies that character. */
  lemma StripUnitWordsAtGap(s: string, i: nat, units: seq<string>)
    requires UnitsWellFormed(units) && i < |s| && !IsWordChar(s[i])
    ensures StripUnitWords(s, i, units) == [s[i]] + StripUnitWords(s, i + 1, units)
  {
    UnitAtStartsWord(s, i, units);
  }

  /** Removing unit words from the text removes exactly the unit words from its list of words. */
  lemma {:induction false} StripUnitWordsWords(s: string, i: nat, units: seq<string>)
    requires UnitsWellFormed(units) && i <= |s|
    requires i == 0 || i == |s| || !IsWordChar(s[i - 1]) || !IsWordChar(s[i])
    ensures Words(StripUnitWords(s, i, units)) == RemoveUnits(Words(s[i..]), units)
    decreases |s| - i, 1
  {
    if i < |s| {
      if !IsWordChar(s[i]) {
        StripUnitWordsWordsAtGap(s, i, units);
      } else {
        var e := i + Span(s, i, WordChar);
        SpanWordRun(s, i);
        StripUnitWordsWordsAtWord(s, i, e, units);
      }
    }
  }

  lemma {:induction false} StripUnitWordsWordsAtGap(s: string, i: nat, units: seq<string>)
    requires UnitsWellFormed(units) && i < |s| && !IsWordChar(s[i])
    ensures Words(StripUnitWords(s, i, units)) == RemoveUnits(Words(s[i..]), units)
    decreases |s| - i, 0
  {
    StripUnitWordsAtGap(s, i, units);
    StripUnitWordsWords(s, i + 1, units);
    WordsSkip(s[i], StripUnitWords(s, i + 1, units));
    assert s[i..] == [s[i]] + s[i + 1..];
    WordsSkip(s[i], s[i + 1..]);
  }

  lemma {:induction false} StripUnitWordsWordsAtWord(s: string, i: nat, e: nat, units: seq<string>)
    requires UnitsWellFormed(units) && WordRun(s, i, e)
    requires i == 0 || !IsWordChar(s[i - 1])
    ensures Words(StripUnitWords(s, i, units)) == RemoveUnits(Words(s[i..]), units)
    decreases |s| - i, 0
  {
    var w := s[i..e];
    var rest := StripUnitWords(s, e, units);
    StripUnitWordsWords(s, e, units);
    WordsOfRun(s, i, e);
    RemoveUnitsCons(w, Words(s[e..]), units);
    if e < |s| {
      StripUnitWordsAtGap(s, e, units);
    }
    if w in units {
      StripUnitWordsDropsUnit(s, i, e, units);
      WordsSkip(' ', rest);
    } else {
      StripUnitWordsCopiesWord(s, i, e, units);
      WordsOfWordThen(w, rest);
    }
  }

  /** A word that is a unit becomes one space. */
  lemma StripUnitWordsDropsUnit(s: string, i: nat, e: nat, units: seq<string>)
    requires UnitsWellFormed(units) && WordRun(s, i, e)
    requires i == 0 || !IsWordChar(s[i - 1])
    requires s[i..e] in units
    ensures StripUnitWords(s, i, units) == " " + StripUnitWords(s, e, units)
  {
    UnitWordAtUnit(s, i, e, units);
  }

  /** A word that is not a unit is copied. */
  lemma StripUnitWordsCopiesWord(s: string, i: nat, e: nat, units: seq<string>)
    requires UnitsWellFormed(units) && WordRun(s, i, e)
    requires s[i..e] !in units
    ensures StripUnitWords(s, i, units) == s[i..e] + StripUnitWords(s, e, units)
  {
    UnitWordAtNonUnit(s, i, e, units);
    assert StripUnitWords(s, i, units) == [s[i]] + StripUnitWords(s, i + 1, units);
    StripUnitWordsInsideWord(s, i + 1, e, units);
    SliceCons(s, i, e);
    ConsAssoc(s[i], s[i + 1..e], StripUnitWords(s, e, units));
  }

  /** The unit-word pass only writes characters it read, and spaces. */
  lemma {:induction false} StripUnitWordsKeeps(s: string, i: nat, units: seq<string>)
    requires UnitsWellFormed(units) && i <= |s|
    requires forall j :: i <= j < |s| ==> KeptChar(s[j])
    ensures AllKept(StripUnitWords(s, i, units))
    decreases |s| - i
  {
    if i < |s| {
      match UnitWordAt(s, i, units)
      case Some(n) => StripUnitWordsKeeps(s, i + n, units);
      case None => StripUnitWordsKeeps(s, i + 1, units);
    }
  }

  // ----- collapsing and trimming whitespace -----

  /** Text with only `a-z`, `0-9` and single spaces. */
  predicate SingleSpaced(r: string) {
    && (forall k :: 0 <= k < |r| ==> IsLowerAlpha(r[k]) || IsDigit(r[k]) || r[k] == ' ')
    && (forall k :: 0 <= k < |r| - 1 && r[k] == ' ' ==> r[k + 1] != ' ')
  }

  /** The shape of every normalised name: single-spaced, no space at either end. */
  predicate Canonical(r: string) {
    SingleSpaced(r) && (r == [] || (r[0] != ' ' && r[|r| - 1] != ' '))
  }

  lemma {:induction false} CollapseNoSpacePrefix(s: string, k: nat)
    requires k <= |s| && forall j :: 0 <= j < k ==> !IsSpace(s[j])
    ensures CollapseSpaces(s) == s[..k] + CollapseSpaces(s[k..])
    decreases k
  {
    if k > 0 {
      CollapseNoSpacePrefix(s[1..], k - 1);
      assert s[1..][..k - 1] == s[1..k];
      assert s[1..][k - 1..] == s[k..];
      assert s[..k] == [s[0]] + s[1..k];
    }
  }

  /** Collapsing leaves single spaces and starts with a space exactly when the text did. */
  lemma {:induction false} CollapseShape(s: string)
    requires AllKept(s)
    ensures SingleSpaced(CollapseSpaces(s))
    ensures s != [] ==> CollapseSpaces(s) != [] && (CollapseSpaces(s)[0] == ' ' <==> IsSpace(s[0]))
    decreases |s|
  {
    if s != [] {
      var t := if IsSpace(s[0]) then s[Span(s, 0, Space)..] else s[1..];
      assert AllKept(t) by {
        forall j | 0 <= j < |t| ensures KeptChar(t[j]) { assert t[j] in s; }
      }
      CollapseShape(t);
    }
  }

  /** Collapsing whitespace keeps the words. */
  lemma {:induction false} CollapseWords(s: string)
    ensures Words(CollapseSpaces(s)) == Words(s)
    decreases |s|
  {
    if s != [] {
      if IsSpace(s[0]) {
        var n := Span(s, 0, Space);
        SpanAll(s, 0, Space);
        CollapseWords(s[n..]);
        forall j | 0 <= j < n ensures !IsWordChar(s[j]) {
          assert InClass(s[j], Space);
          SpaceIsNotWordChar(s[j]);
        }
        WordsDropGap(s, n);
        WordsSkip(' ', CollapseSpaces(s[n..]));
      } else if !IsWordChar(s[0]) {
        CollapseWords(s[1..]);
        WordsSkip(s[0], CollapseSpaces(s[1..]));
      } else {
        CollapseWordRun(s);
      }
    }
  }

  lemma {:induction false} CollapseWordRun(s: string)
    requires s != [] && IsWordChar(s[0])
    ensures Words(CollapseSpaces(s)) == Words(s)
    decreases |s|, 0
  {
    var n := Span(s, 0, WordChar);
    SpanWordRun(s, 0);
    WordsOfRun(s, 0, n);
    forall j | 0 <= j < n ensures !IsSpace(s[j]) {
      assert InClass(s[j], WordChar);
      SpaceIsNotWordChar(s[j]);
    }
    CollapseNoSpacePrefix(s, n);
    CollapseWords(s[n..]);
    var t := CollapseSpaces(s[n..]);
    CollapseStart(s[n..]);
    assert s[0..] == s && s[..n] == s[0..n];
    WordsOfWordThen(s[..n], t);
  }

  /** Collapsing keeps a leading non-word character non-word. */
  lemma CollapseStart(s: string)
    requires s == [] || !IsWordChar(s[0])
    ensures CollapseSpaces(s) == [] || !IsWordChar(CollapseSpaces(s)[0])
  {
  }

  /** Trimming keeps the words. */
  lemma TrimWords(x: string)
    ensures Words(Trim(x)) == Words(x)
  {
    var a := Span(x, 0, Space);
    SpanAll(x, 0, Space);
    var t := Trim(x);
    var tail := x[a + |t|..];
    forall j | 0 <= j < a ensures !IsWordChar(x[j]) {
      assert InClass(x[j], Space);
      SpaceIsNotWordChar(x[j]);
    }
    WordsDropGap(x, a);
    assert x[a..] == t + tail;
    forall j | 0 <= j < |tail| ensures !IsWordChar(tail[j]) { SpaceIsNotWordChar(tail[j]); }
    WordsOfGap(tail);
    WordsAppend(t, tail);
    assert Words(t) + [] == Words(t);
  }

  /** Trimming single-spaced text makes it canonical. */
  lemma TrimShape(x: string)
    requires SingleSpaced(x)
    ensures Canonical(Trim(x))
  {
    var a := Span(x, 0, Space);
    var t := Trim(x);
    assert forall k :: 0 <= k < |t| ==> t[k] == x[a + k];
  }

  /** A canonical text is its words joined by single spaces. */
  lemma {:induction false} CanonicalJoin(t: string)
    requires Canonical(t)
    ensures JoinWords(Words(t)) == t
    decreases |t|
  {
    if t != [] {
      var n := Span(t, 0, WordChar);
      var w := t[..n];
      if n < |t| {
        CanonicalJoinStep(t, n);
      } else {
        assert t[..n] == t && t[n..] == [];
        assert Words(t) == [t] + Words([]);
      }
    }
  }

  lemma {:induction false} CanonicalJoinStep(t: string, n: nat)
    requires Canonical(t) && t != [] && n == Span(t, 0, WordChar) && n < |t|
    ensures JoinWords(Words(t)) == t
    decreases |t|, 0
  {
    var w := t[..n];
    assert t[n] == ' ';
    assert n + 1 < |t| && t[n + 1] != ' ';
    var rest := t[n + 1..];
    assert Canonical(rest);
    CanonicalJoin(rest);
    WordsSkip(' ', rest);
    assert t[n..] == [' '] + rest;
    assert Words(t) == [w] + Words(rest);
    assert Words(rest) != [] by {
      assert IsWordChar(rest[0]);
    }
    assert t == w + " " + rest;
  }

  /** The shared tail of both normalisers: punctuation out, unit words out, whitespace normalised. */
  lemma FinishByWords(p: string, units: seq<string>)
    requires UnitsWellFormed(units)
    ensures Canonical(Finish(p, units))
    ensures Words(Finish(p, units)) == RemoveUnits(Words(ReplacePunctuation(p)), units)
    ensures Finish(p, units) == JoinWords(RemoveUnits(Words(ReplacePunctuation(p)), units))
  {
    var q := ReplacePunctuation(p);
    var x := StripUnitWords(q, 0, units);
    StripUnitWordsWords(q, 0, units);
    StripUnitWordsKeeps(q, 0, units);
    CollapseShape(x);
    CollapseWords(x);
    TrimShape(CollapseSpaces(x));
    TrimWords(CollapseSpaces(x));
    assert q[0..] == q;
    CanonicalJoin(Finish(p, units));
  }
}
