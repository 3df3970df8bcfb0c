/**
  * The name pairs of the similarity test suites (functions/src/__tests__/similarity.test.ts and
  * functions/lib/__tests__/similarity.test.js), scored exactly. The names are plain lower-case
  * words, so both normalisers return them lower-cased and otherwise unchanged; the scores then
  * follow from the edit distances, each pinned between an explicit alignment and the
  * character-count bound `EditDistanceSurplus`.
  */
module SimilarityCases {
  import opened JsText
  import opened Normalize
  import opened Edits
  import opened Similarity

  // ----- scores from a distance -----

  /** Strings that differ at a shared position are not prefixes of each other. */
  lemma Apart(a: string, b: string, k: nat)
    requires k < |a| && k < |b| && a[k] != b[k]
    ensures !(a <= b) && !(b <= a)
  {
  }

  /** The TS score of two names that are not prefixes of each other, from their edit distance. */
  lemma TsScoreByDistance(na: string, nb: string, k: nat, d: nat, r: real)
    requires k < |na| && k < |nb| && na[k] != nb[k]
    requires r == 1.0 - d as real / Max(|na|, |nb|) as real
    ensures EditDistance(na, nb) == d ==> TsScore(na, nb) == r
  {
    Apart(na, nb, k);
  }

  /** The lib score of two single words that are not prefixes of each other: the bare character similarity. */
  lemma LibScoreOfWords(na: string, nb: string, k: nat, d: nat, r: real)
    requires IsWord(na) && IsWord(nb)
    requires k < |na| && k < |nb| && na[k] != nb[k]
    requires r == 1.0 - d as real / Max(|na|, |nb|) as real
    ensures EditDistance(na, nb) == d ==> LibScore(na, nb) == r
  {
    Apart(na, nb, k);
    TokenizeWord(na, "");
    TokenizeWord(nb, "");
  }

  /** Distinct raw names are scored by their normal forms. */
  lemma CombinedByNormal(a: string, b: string, na: string, nb: string, rt: real, rl: real)
    requires IsAscii(a) && IsAscii(b) && a != b
    requires NormalizeTs(a) == na && NormalizeLib(a) == na && NormalizeTs(b) == nb && NormalizeLib(b) == nb
    requires TsScore(na, nb) == rt && LibScore(na, nb) == rl
    ensures CombinedTs(a, b) == rt && CombinedLib(a, b) == rl
  {
  }

  // ----- "test" and "toast", after any shared beginning -----

  /** Replace the 'e' by 'o', then insert 'a'. */
  lemma AlignTeToa(p: string)
    ensures EditDistance(p + "te", p + "toa") <= 2
  {
    assert Init(p + "te") == p + "t" && Init(p + "toa") == p + "to" && Init(p + "to") == p + "t";
    LastStep(p + "te", p + "to");
    LastStep(p + "te", p + "toa");
    EditDistanceSelf(p + "t");
  }

  /** The shared ending "st" costs nothing. */
  lemma AlignTestToast(p: string)
    ensures EditDistance(p + "test", p + "toast") <= 2
  {
    assert p + "test" == (p + "te") + "st" && p + "toast" == (p + "toa") + "st";
    CommonSuffix(p + "te", p + "toa", "st");
    AlignTeToa(p);
  }

  /** The 'o' and the 'a' of "toast" have no counterpart in "test". */
  lemma BoundTestToast(p: string)
    ensures EditDistance(p + "test", p + "toast") >= 2
  {
    var a, b := p + "test", p + "toast";
    assert multiset(b)['o'] == multiset(p)['o'] + 1 && multiset(a)['o'] == multiset(p)['o'];
    assert multiset(b)['a'] == multiset(p)['a'] + 1 && multiset(a)['a'] == multiset(p)['a'];
    assert "oa"[..1] == "o" && "o"[..0] == [];
    assert Surplus(a, b, "o") == 1;
    assert Surplus(a, b, "oa") == 2;
    EditDistanceSurplus(a, b, "oa");
  }

  /** "test" becomes "toast" by two edits and no fewer, whatever precedes both. */
  lemma DistanceTestToast(p: string)
    ensures EditDistance(p + "test", p + "toast") == 2
  {
    AlignTestToast(p);
    BoundTestToast(p);
  }

  /** The TS score of "test" against "toast" after a shared beginning `p`: 1 - 2 / (|p| + 5). */
  lemma TsTestToast(p: string, na: string, nb: string, r: real)
    requires na == p + "test" && nb == p + "toast" && r == 1.0 - 2.0 / (|p| + 5) as real
    ensures TsScore(na, nb) == r
  {
    TsScoreByDistance(na, nb, |p| + 1, 2, r);
    DistanceTestToast(p);
  }

  /** The lib score of "test" against "toast" after a shared beginning `p`, by how many tokens each has. */
  lemma LibTestToast(p: string, na: string, nb: string, ta: seq<string>, tb: seq<string>, r: real)
    requires na == p + "test" && nb == p + "toast" && Tokenize(na) == ta && Tokenize(nb) == tb
    requires |ta| == 1 && |tb| == 1 ==> r == 1.0 - 2.0 / (|p| + 5) as real
    requires !(|ta| == 1 && |tb| == 1) ==> r == 0.6 * Jaccard(ta, tb) + 0.4 * (1.0 - 2.0 / (|p| + 5) as real)
    ensures LibScore(na, nb) == r
  {
    Apart(na, nb, |p| + 1);
    DistanceTestToast(p);
  }

  lemma NormalTest()
    ensures NormalizeTs("test") == "test" && NormalizeLib("test") == "test"
  {
    assert Lower("test") == JoinWords(["test"]);
    NormalizePlain("test", ["test"]);
  }

  lemma NormalToast()
    ensures NormalizeTs("toast") == "toast" && NormalizeLib("toast") == "toast"
  {
    assert Lower("toast") == JoinWords(["toast"]);
    NormalizePlain("toast", ["toast"]);
  }

  lemma TokensTestToast()
    ensures Tokenize("test") == ["test"] && Tokenize("toast") == ["toast"]
  {
    TokenizeWord("test", "");
    TokenizeWord("toast", "");
  }

  lemma ScoresTestToast()
    ensures TsScore("test", "toast") == 0.6 && LibScore("test", "toast") == 0.6
  {
    TokensTestToast();
    TsTestToast("", "test", "toast", 0.6);
    LibTestToast("", "test", "toast", ["test"], ["toast"], 0.6);
  }

  /** Both versions score 'test' against 'toast' at 1 - 2/5 = 0.6, above the expected minimum 0.5. */
  lemma ScoreTestToast()
    ensures CombinedTs("test", "toast") == 0.6 && CombinedLib("test", "toast") == 0.6
  {
    NormalTest();
    NormalToast();
    ScoresTestToast();
  }

  // ----- "My Test" and "My Toast" -----

  lemma NormalMyTest()
    ensures NormalizeTs("My Test") == "my test" && NormalizeLib("My Test") == "my test"
  {
    assert Lower("My Test") == JoinWords(["my", "test"]) == "my test";
    NormalizePlain("My Test", ["my", "test"]);
  }

  lemma NormalMyToast()
    ensures NormalizeTs("My Toast") == "my toast" && NormalizeLib("My Toast") == "my toast"
  {
    assert Lower("My Toast") == JoinWords(["my", "toast"]) == "my toast";
    NormalizePlain("My Toast", ["my", "toast"]);
  }

  /** After a first word `w`, "test" and "toast" make the token lists `[w, "test"]` and `[w, "toast"]`. */
  lemma TokensAfterWord(w: string)
    requires IsWord(w)
    ensures Tokenize(w + " " + "test") == [w, "test"] && Tokenize(w + " " + "toast") == [w, "toast"]
  {
    WordsTestToast();
    TwoWords(w, "test");
    TwoWords(w, "toast");
  }

  lemma WordsTestToast()
    ensures IsWord("test") && IsWord("toast")
  {
  }

  /** Two words joined by a space split back into those two words. */
  lemma TwoWords(w: string, t: string)
    requires IsWord(w) && IsWord(t)
    ensures Tokenize(w + " " + t) == [w, t]
  {
    TokenizeWord(t, "");
    assert w + " " + t == w + [' '] + t;
    TokenizeWord(w, t);
  }

  /** The two lists share one token, `w`, of three distinct ones. */
  lemma JaccardAfterWord(w: string)
    requires w != "test" && w != "toast"
    ensures Jaccard([w, "test"], [w, "toast"]) == 1.0 / 3.0
  {
    var x, y := TokenSet([w, "test"]), TokenSet([w, "toast"]);
    assert x == {w, "test"} && y == {w, "toast"};
    assert "test" != "toast";
    assert x * y == {w};
    assert x + y == {w, "test", "toast"};
    assert |{w, "test", "toast"}| == 3;
  }

  /** The lib score of "w test" against "w toast": 0.6 * 1/3 plus 0.4 times the character similarity. */
  lemma LibAfterWord(w: string, na: string, nb: string, r: real)
    requires IsWord(w) && w != "test" && w != "toast"
    requires na == w + " " + "test" && nb == w + " " + "toast" && r == 0.2 + 0.4 * (1.0 - 2.0 / (|w| + 6) as real)
    ensures LibScore(na, nb) == r
  {
    TokensAfterWord(w);
    JaccardAfterWord(w);
    LibTestToast(w + " ", na, nb, [w, "test"], [w, "toast"], r);
  }

  lemma TsMyTest()
    ensures TsScore("my test", "my toast") == 0.75
  {
    TsTestToast("my ", "my test", "my toast", 0.75);
  }

  lemma LibMyTest()
    ensures LibScore("my test", "my toast") == 0.5
  {
    LibAfterWord("my", "my test", "my toast", 0.5);
  }

  /**
    * 'My Test' against 'My Toast': 1 - 2/8 = 0.75 in TS, and 0.6 * 1/3 + 0.4 * 0.75 = 0.5 in lib,
    * both at least the expected minimum 0.5.
    */
  lemma ScoreMyTest()
    ensures CombinedTs("My Test", "My Toast") == 0.75 && CombinedLib("My Test", "My Toast") == 0.5
  {
    NormalMyTest();
    NormalMyToast();
    TsMyTest();
    LibMyTest();
  }

  // ----- "cherry" and "strawberry" -----

  /**
    * Two words `x + s` and `y + s` that differ at position `k`, where `y` has distinct letters that
    * `x` lacks and is at least as long, are `|y|` edits apart, and both versions score them
    * 1 - |y| / |longer word|.
    */
  lemma ScoresBySuffix(x: string, y: string, s: string, na: string, nb: string, k: nat, r: real)
    requires na == x + s && nb == y + s && IsWord(na) && IsWord(nb)
    requires Distinct(y) && (forall j :: 0 <= j < |y| ==> y[j] !in x) && |x| <= |y|
    requires k < |na| && k < |nb| && na[k] != nb[k]
    requires r == 1.0 - |y| as real / Max(|na|, |nb|) as real
    ensures TsScore(na, nb) == r && LibScore(na, nb) == r
  {
    CommonSuffix(x, y, s);
    EditDistanceDisjoint(x, y);
    assert EditDistance(x, y) <= Max(|x|, |y|) == |y|;
    TsScoreByDistance(na, nb, k, |y|, r);
    LibScoreOfWords(na, nb, k, |y|, r);
  }

  /** "cherry" ends in "erry" after "ch", "strawberry" after "strawb"; both are words, differing at 0. */
  lemma WordsCherry()
    ensures "cherry" == "ch" + "erry" && "strawberry" == "strawb" + "erry"
    ensures IsWord("cherry") && IsWord("strawberry")
    ensures 0 < |"cherry"| && 0 < |"strawberry"| && "cherry"[0] != "strawberry"[0]
    ensures |"ch"| <= |"strawb"| == 6 && Max(|"cherry"|, |"strawberry"|) == 10
  {
  }

  /** None of the distinct letters of "strawb" occurs in "ch". */
  lemma LettersCherry()
    ensures Distinct("strawb") && forall j :: 0 <= j < |"strawb"| ==> "strawb"[j] !in "ch"
  {
  }

  /** Keep "erry" and rewrite "ch" into "strawb": six edits, and no fewer. */
  lemma ScoresCherry()
    ensures TsScore("cherry", "strawberry") == 0.4 && LibScore("cherry", "strawberry") == 0.4
  {
    WordsCherry();
    LettersCherry();
    ScoresBySuffix("ch", "strawb", "erry", "cherry", "strawberry", 0, 0.4);
  }

  lemma NormalCherry()
    ensures IsAscii("cherry") && "cherry" != "strawberry"
    ensures NormalizeTs("cherry") == "cherry" && NormalizeLib("cherry") == "cherry"
  {
    assert Lower("cherry") == JoinWords(["cherry"]);
    NormalizePlain("cherry", ["cherry"]);
  }

  lemma NormalStrawberry()
    ensures IsAscii("strawberry")
    ensures NormalizeTs("strawberry") == "strawberry" && NormalizeLib("strawberry") == "strawberry"
  {
    assert Lower("strawberry") == JoinWords(["strawberry"]);
    NormalizePlain("strawberry", ["strawberry"]);
  }

  /**
    * 'cherry' against 'strawberry': 1 - 6/10 = 0.4 in both versions, at least the TS suite's
    * minimum 0.2 and below the lib suite's maximum 0.5.
    */
  lemma ScoreCherry()
    ensures CombinedTs("cherry", "strawberry") == 0.4 && CombinedLib("cherry", "strawberry") == 0.4
  {
    NormalCherry();
    NormalStrawberry();
    ScoresCherry();
    CombinedByNormal("cherry", "strawberry", "cherry", "strawberry", 0.4, 0.4);
  }

  // ----- prefix pairs -----

  /** The scores of a name against itself followed by a non-empty `rest`, in either order. */
  lemma PrefixScores(short: string, rest: string, long: string, r: real)
    requires rest != [] && long == short + rest
    requires r == 0.9 + 0.1 * (|short| as real / |long| as real)
    ensures TsScore(short, long) == 0.9 && TsScore(long, short) == 0.9
    ensures LibScore(short, long) == r && LibScore(long, short) == r
  {
    assert short <= long && short != long;
    LibScorePrefix(short, long);
    LibScoreProperties(short, long);
  }

  /** A name made of plain lower-case words is its own normal form in both versions. */
  lemma NormalApple()
    ensures NormalizeTs("apple") == "apple" && NormalizeLib("apple") == "apple"
  {
    assert Lower("apple") == JoinWords(["apple"]);
    NormalizePlain("apple", ["apple"]);
  }

  lemma NormalAppleInc()
    ensures NormalizeTs("apple inc") == "apple inc" && NormalizeLib("apple inc") == "apple inc"
  {
    assert Lower("apple inc") == JoinWords(["apple", "inc"]) == "apple inc";
    NormalizePlain("apple inc", ["apple", "inc"]);
  }

  lemma ScoresApple()
    ensures TsScore("apple", "apple inc") == 0.9 && TsScore("apple inc", "apple") == 0.9
    ensures LibScore("apple", "apple inc") == 0.9 + 0.1 * (5.0 / 9.0)
    ensures LibScore("apple inc", "apple") == 0.9 + 0.1 * (5.0 / 9.0)
  {
    PrefixScores("apple", " inc", "apple inc", 0.9 + 0.1 * (5.0 / 9.0));
  }

  /**
    * 'apple' against itself scores 1; 'apple inc' against 'apple', in either order, 0.9 in TS and
    * 0.9 + 0.1 * 5/9 in lib, at least the expected minimum 0.9.
    */
  lemma ScoreApple()
    ensures CombinedTs("apple", "apple") == 1.0 && CombinedLib("apple", "apple") == 1.0
    ensures CombinedTs("apple inc", "apple") == 0.9 && CombinedTs("apple", "apple inc") == 0.9
    ensures CombinedLib("apple inc", "apple") == 0.9 + 0.1 * (5.0 / 9.0)
    ensures CombinedLib("apple", "apple inc") == 0.9 + 0.1 * (5.0 / 9.0)
  {
    NormalApple();
    NormalAppleInc();
    ScoresApple();
  }

  lemma NormalBanana()
    ensures NormalizeTs("banana") == "banana" && NormalizeLib("banana") == "banana"
  {
    assert Lower("banana") == JoinWords(["banana"]);
    NormalizePlain("banana", ["banana"]);
  }

  lemma NormalBananas()
    ensures NormalizeTs("bananas") == "bananas" && NormalizeLib("bananas") == "bananas"
  {
    assert Lower("bananas") == JoinWords(["bananas"]);
    NormalizePlain("bananas", ["bananas"]);
  }

  lemma ScoresBanana()
    ensures TsScore("bananas", "banana") == 0.9 && LibScore("bananas", "banana") == 0.9 + 0.1 * (6.0 / 7.0)
  {
    PrefixScores("banana", "s", "bananas", 0.9 + 0.1 * (6.0 / 7.0));
  }

  /** 'bananas' against 'banana': 0.9 in TS and 0.9 + 0.1 * 6/7 in lib, at least the expected minimum 0.9. */
  lemma ScoreBanana()
    ensures CombinedTs("bananas", "banana") == 0.9
    ensures CombinedLib("bananas", "banana") == 0.9 + 0.1 * (6.0 / 7.0)
  {
    NormalBanana();
    NormalBananas();
    ScoresBanana();
  }

  lemma NormalGrape()
    ensures NormalizeTs("grape") == "grape" && NormalizeLib("grape") == "grape"
  {
    assert Lower("grape") == JoinWords(["grape"]);
    NormalizePlain("grape", ["grape"]);
  }

  lemma NormalGrapes()
    ensures NormalizeTs("grapes") == "grapes" && NormalizeLib("grapes") == "grapes"
  {
    assert Lower("grapes") == JoinWords(["grapes"]);
    NormalizePlain("grapes", ["grapes"]);
  }

  lemma ScoresGrape()
    ensures TsScore("grapes", "grape") == 0.9 && LibScore("grapes", "grape") == 0.9 + 0.1 * (5.0 / 6.0)
  {
    PrefixScores("grape", "s", "grapes", 0.9 + 0.1 * (5.0 / 6.0));
  }

  /** 'grapes' against 'grape': 0.9 in TS and 0.9 + 0.1 * 5/6 in lib, at least the expected minimum 0.9. */
  lemma ScoreGrape()
    ensures CombinedTs("grapes", "grape") == 0.9
    ensures CombinedLib("grapes", "grape") == 0.9 + 0.1 * (5.0 / 6.0)
  {
    NormalGrape();
    NormalGrapes();
    ScoresGrape();
  }
}
