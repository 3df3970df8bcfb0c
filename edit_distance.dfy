/**
  * Unit-cost edit distance (Levenshtein distance) between two strings: the least number of
  * single-character insertions, deletions and substitutions that turn one into the other.
  * Defined by the textbook recursion on the last characters, with all three moves always
  * considered; the table-filling code of functions/src/similarity.ts and
  * functions/lib/similarity.js is proved to compute it.
  */
module Edits {

  function Min3(x: nat, y: nat, z: nat): (m: nat)
    ensures m <= x && m <= y && m <= z
    ensures m == x || m == y || m == z
  {
    if x <= y && x <= z then x else if y <= z then y else z
  }

  /**
    * The cheapest last move, given the distances without the last character of both strings,
    * of the first only and of the second only: substitute (free when the characters agree),
    * delete or insert.
    */
  function Best(both: nat, first: nat, second: nat, same: bool): nat {
    Min3(both + (if same then 0 else 1), first + 1, second + 1)
  }

  function Max(x: nat, y: nat): nat {
    if x >= y then x else y
  }

  function Init(s: string): string
    requires |s| > 0
  {
    s[..|s| - 1]
  }

  function Last(s: string): char
    requires |s| > 0
  {
    s[|s| - 1]
  }

  /** The edit distance, bounded by the longer length and at least the difference of lengths. */
  function EditDistance(a: string, b: string): (d: nat)
    ensures d <= Max(|a|, |b|)
    ensures |a| <= d + |b| && |b| <= d + |a|
    decreases |a| + |b|
  {
    if |a| == 0 then |b|
    else if |b| == 0 then |a|
    else
      Best(EditDistance(Init(a), Init(b)), EditDistance(Init(a), b), EditDistance(a, Init(b)), Last(a) == Last(b))
  }

  /** The distance to the empty string is the other string's length. */
  lemma EditDistanceEmpty(a: string)
    ensures EditDistance(a, "") == |a| && EditDistance("", a) == |a|
  {
  }

  /** The distance does not depend on the order of its arguments. */
  lemma {:induction false} EditDistanceSymmetric(a: string, b: string)
    ensures EditDistance(a, b) == EditDistance(b, a)
    decreases |a| + |b|
  {
    if |a| > 0 && |b| > 0 {
      EditDistanceSymmetric(Init(a), b);
      EditDistanceSymmetric(a, Init(b));
      EditDistanceSymmetric(Init(a), Init(b));
    }
  }

  lemma {:induction false} EditDistanceSelf(a: string)
    ensures EditDistance(a, a) == 0
    decreases |a|
  {
    if |a| > 0 {
      EditDistanceSelf(Init(a));
    }
  }

  /** Distance 0 means equal strings, and only then. */
  lemma EditDistanceZero(a: string, b: string)
    ensures EditDistance(a, b) == 0 <==> a == b
  {
    EditDistanceSelf(a);
    ZeroMeansEqual(a, b);
  }

  lemma {:induction false} ZeroMeansEqual(a: string, b: string)
    ensures EditDistance(a, b) == 0 ==> a == b
    decreases |a| + |b|
  {
    if |a| > 0 && |b| > 0 && EditDistance(a, b) == 0 {
      ZeroMeansEqual(Init(a), Init(b));
      assert a == Init(a) + [Last(a)] && b == Init(b) + [Last(b)];
    }
  }

  /** Removing the last character of the first string costs at most one edit. */
  lemma {:induction false} DropLastFirst(a: string, b: string)
    requires |a| > 0
    ensures EditDistance(Init(a), b) <= EditDistance(a, b) + 1
    decreases |a| + |b|
  {
    if |b| > 0 {
      DropLastFirst(a, Init(b));
      DropLastSecondStep(Init(a), b);
    }
  }

  /** Removing the last character of the second string costs at most one edit. */
  lemma {:induction false} DropLastSecond(a: string, b: string)
    requires |b| > 0
    ensures EditDistance(a, Init(b)) <= EditDistance(a, b) + 1
    decreases |a| + |b|
  {
    if |a| > 0 {
      DropLastSecond(Init(a), b);
      DropLastFirstStep(a, Init(b));
    }
  }

  /** One step of the recursion: appending a character to the second string costs at most one edit. */
  lemma DropLastSecondStep(a: string, b: string)
    requires |b| > 0
    ensures EditDistance(a, b) <= EditDistance(a, Init(b)) + 1
  {
  }

  /** One step of the recursion: appending a character to the first string costs at most one edit. */
  lemma DropLastFirstStep(a: string, b: string)
    requires |a| > 0
    ensures EditDistance(a, b) <= EditDistance(Init(a), b) + 1
  {
  }

  /**
    * When the last characters agree, keeping them is optimal: the distance is the distance of
    * the two strings without them. This is the shortcut the source takes on equal characters.
    */
  lemma MatchingLast(a: string, b: string)
    requires |a| > 0 && |b| > 0 && Last(a) == Last(b)
    ensures EditDistance(a, b) == EditDistance(Init(a), Init(b))
  {
    DropLastFirst(a, Init(b));
    DropLastSecond(Init(a), b);
  }

  /** A common ending costs nothing: the distance is that of the two strings without it. */
  lemma {:induction false} CommonSuffix(a: string, b: string, s: string)
    ensures EditDistance(a + s, b + s) == EditDistance(a, b)
    decreases |s|
  {
    if s == [] {
      assert a + s == a && b + s == b;
    } else {
      var t := s[..|s| - 1];
      assert Init(a + s) == a + t && Init(b + s) == b + t;
      MatchingLast(a + s, b + s);
      CommonSuffix(a, b, t);
    }
  }

  /** The recursion in the form the table-filling loops use, on prefixes of the two inputs. */
  lemma PrefixStep(a: string, b: string, j: nat, i: nat)
    requires 1 <= j <= |a| && 1 <= i <= |b|
    ensures EditDistance(a[..j], b[..i]) ==
              if b[i - 1] == a[j - 1] then EditDistance(a[..j - 1], b[..i - 1])
              else Best(EditDistance(a[..j - 1], b[..i - 1]), EditDistance(a[..j - 1], b[..i]),
                        EditDistance(a[..j], b[..i - 1]), false)
  {
    PrefixInit(a, j);
    PrefixInit(b, i);
    LastStep(a[..j], b[..i]);
  }

  /** The recursion with the shortcut on equal last characters. */
  lemma LastStep(x: string, y: string)
    requires |x| > 0 && |y| > 0
    ensures EditDistance(x, y) ==
              if Last(y) == Last(x) then EditDistance(Init(x), Init(y))
              else Best(EditDistance(Init(x), Init(y)), EditDistance(Init(x), y), EditDistance(x, Init(y)), false)
  {
    if Last(y) == Last(x) {
      MatchingLast(x, y);
    }
  }

  lemma PrefixInit(s: string, j: nat)
    requires 1 <= j <= |s|
    ensures Init(s[..j]) == s[..j - 1] && Last(s[..j]) == s[j - 1]
  {
  }

  // ----- a lower bound by character counts -----

  /** The characters of `cs` listed once each. */
  predicate Distinct(cs: seq<char>) {
    forall i, j :: 0 <= i < j < |cs| ==> cs[i] != cs[j]
  }

  /** How many more times `b` holds the characters of `cs` than `a` does, character by character. */
  function Surplus(a: string, b: string, cs: seq<char>): nat {
    if cs == [] then 0
    else
      var c := cs[|cs| - 1];
      Surplus(a, b, cs[..|cs| - 1]) + (if multiset(b)[c] > multiset(a)[c] then multiset(b)[c] - multiset(a)[c] else 0)
  }

  /** A character more in the first string never adds to the surplus. */
  lemma {:induction false} SurplusGrowFirst(a: string, b: string, cs: seq<char>, x: char)
    ensures Surplus(a + [x], b, cs) <= Surplus(a, b, cs)
  {
    if cs != [] {
      SurplusGrowFirst(a, b, cs[..|cs| - 1], x);
      assert multiset(a + [x]) == multiset(a) + multiset{x};
    }
  }

  /** A character more in the second string adds at most one, and only if it is listed. */
  lemma {:induction false} SurplusGrowSecond(a: string, b: string, cs: seq<char>, y: char)
    requires Distinct(cs)
    ensures Surplus(a, b + [y], cs) <= Surplus(a, b, cs) + (if y in cs then 1 else 0)
  {
    if cs != [] {
      var front := cs[..|cs| - 1];
      assert Distinct(front);
      SurplusGrowSecond(a, b, front, y);
      assert multiset(b + [y]) == multiset(b) + multiset{y};
      assert y == cs[|cs| - 1] ==> y !in front;
      assert y in front ==> y in cs;
    }
  }

  /** The same character added to both strings leaves the surplus as it was. */
  lemma {:induction false} SurplusGrowBoth(a: string, b: string, cs: seq<char>, x: char)
    ensures Surplus(a + [x], b + [x], cs) == Surplus(a, b, cs)
  {
    if cs != [] {
      SurplusGrowBoth(a, b, cs[..|cs| - 1], x);
      assert multiset(a + [x]) == multiset(a) + multiset{x};
      assert multiset(b + [x]) == multiset(b) + multiset{x};
    }
  }

  lemma {:induction false} SurplusEmpty(b: string, cs: seq<char>)
    requires b == []
    ensures Surplus([], b, cs) == 0
  {
    if cs != [] {
      SurplusEmpty(b, cs[..|cs| - 1]);
    }
  }

  /**
    * Every extra copy of a character that the second string holds needs its own insertion or
    * substitution: the surplus over any list of distinct characters bounds the distance below.
    */
  lemma {:induction false} EditDistanceSurplus(a: string, b: string, cs: seq<char>)
    requires Distinct(cs)
    ensures Surplus(a, b, cs) <= EditDistance(a, b)
    decreases |a| + |b|
  {
    if |b| > 0 {
      assert b == Init(b) + [Last(b)];
      EditDistanceSurplus(a, Init(b), cs);
      SurplusGrowSecond(a, Init(b), cs, Last(b));
    }
    if |a| > 0 {
      assert a == Init(a) + [Last(a)];
      EditDistanceSurplus(Init(a), b, cs);
      SurplusGrowFirst(Init(a), b, cs, Last(a));
    }
    if |a| == 0 && |b| == 0 {
      SurplusEmpty(b, cs);
    } else if |a| > 0 && |b| > 0 {
      EditDistanceSurplus(Init(a), Init(b), cs);
      if Last(a) == Last(b) {
        SurplusGrowBoth(Init(a), Init(b), cs, Last(a));
      } else {
        SurplusGrowFirst(Init(a), b, cs, Last(a));
        SurplusGrowSecond(Init(a), Init(b), cs, Last(b));
        SurplusGrowFirst(Init(a), Init(b) + [Last(b)], cs, Last(a));
      }
    }
  }

  /** Each of the first `k` characters of `b` that `a` lacks adds at least one to the surplus. */
  lemma {:induction false} SurplusDisjoint(a: string, b: string, k: nat)
    requires k <= |b| && forall j :: 0 <= j < |b| ==> b[j] !in a
    ensures Surplus(a, b, b[..k]) >= k
  {
    if k > 0 {
      SurplusDisjoint(a, b, k - 1);
      assert b[..k][..k - 1] == b[..k - 1];
      assert b[k - 1] in multiset(b) && b[k - 1] !in multiset(a);
    }
  }

  /** A string of distinct characters, none of which occurs in `a`, is at least its own length away from `a`. */
  lemma EditDistanceDisjoint(a: string, b: string)
    requires Distinct(b) && forall j :: 0 <= j < |b| ==> b[j] !in a
    ensures EditDistance(a, b) >= |b|
  {
    SurplusDisjoint(a, b, |b|);
    assert b[..|b|] == b;
    EditDistanceSurplus(a, b, b);
  }
}
