# Price-tracking functions, modelled in Dafny

This project models the item-matching and aggregation core of a grocery price tracker's
Firebase functions. The project has ten files:

- `text.dfy` (module `JsText`) covers the JavaScript string operations the core relies on:
  - `trim`, `split`, ASCII `toLowerCase`;
  - the `\s`, `\d` and `\w` character classes, and maximal runs of them;
  - "words", meaning the maximal runs of word characters.
- `normalize.dfy` (module `Normalize`) models `normalizeProductName` in its two versions:
  - functions/src/normalize.ts runs one quantity pass with `\s*` and has "pack" as a unit;
  - functions/lib/normalize.js runs two quantity passes, one with `\s+` and one without, and has no "pack".

  Every `replace(/…/g, " ")` is modelled as a left-to-right scanner over the original string. `\b` is decided on that original string.
- `edit_distance.dfy` (module `Edits`) defines the edit distance by the usual recursion and proves its properties.
- `similarity.dfy` (module `Similarity`) models:
  - both `levenshteinDistance` table fills, as a method on an `array2`, proved equal to the edit distance;
  - `tokenize` and `jaccardSimilarity`;
  - both `combinedSimilarity` scores, as exact rationals.
- `items.dfy` (module `LineItems`) holds what the two receipt-line parsers share:
  - the item record;
  - the reading of a matched price `d+` or `d+.dd` (`parseFloat`);
  - collecting the items that present lines yield.
- `ocr_parser.dfy` (module `OcrParser`) models `parseOcrText` of functions/lib/ocr-parser.js. The price is the leftmost number on the line, and a sentinel "unknown item" is returned when no line yields an item.
- `receipt_parser.dfy` (module `ReceiptParser`) models `parseReceipt` of functions/src/receiptParser.ts:
  - blank lines are dropped;
  - the shop name is the first 60 characters of the first remaining line;
  - prices must be a trailing `d+.dd`;
  - there is no sentinel.
- `aggregations.dfy` (module `Aggregations`) models `updateAggregationsForBillItems` and `createExampleId`:
  - the three Firestore collections are map fields of a class;
  - one method folds the items with a positive price into them, in order;
  - the method is proved to equal a functional fold, about which the statistics invariants and the per-name totals are proved;
  - a sequence of calls from an empty store is replayed, and each global document is proved to hold what the shop documents of its name hold between them.
- `similarity_cases.dfy` (module `SimilarityCases`) scores the name pairs of the similarity test suites exactly, in both versions.
- `parser_cases.dfy` (module `ParserCases`) parses the lines and texts of the OCR and receipt test suites exactly.

Modelling decisions:

- Prices and scores are `real`: exact rationals instead of IEEE doubles.
- The normalisers require ASCII input, since `toLowerCase` is modelled on ASCII only. The line parsers accept any text, as a sequence of Unicode scalar values, and use JavaScript's full `\s` set. JavaScript strings are sequences of UTF-16 code units instead; the two views differ only in the 60-character cut of the shop name (see the ReceiptParser.ShopName entry among the parts left out).
- `createExampleId` takes the hex SHA-1 function as a parameter `sha1Hex`. Calling `hash.update(normalizedName)` and then `hash.update(rawName)` digests the concatenation `normalizedName + rawName`, so the model passes that concatenation to `sha1Hex`.
- The `if (data)` guard in functions/src/aggregations.ts:55 and :87 always holds when the document exists. The TS and lib versions of `updateAggregationsForBillItems` therefore have one model.
- The Firestore transaction is modelled as a sequential fold: each item sees the documents left by the items before it.

## Model

| member | source | states |
|---|---|---|
| JsText.Trim | functions/src/receiptParser.ts:25 | `trim()` yields the slice between the leading and trailing whitespace; the whitespace class is JavaScript's `\s`; the result has no whitespace at either end |
| JsText.SplitJoin | functions/lib/ocr-parser.js:5 | `split("\n")` loses nothing: joining the pieces with the separator gives the text back |
| JsText.SplitOn | functions/lib/ocr-parser.js:5 | splitting gives at least one piece and no piece contains the separator |
| JsText.SplitOfJoin | functions/lib/ocr-parser.js:5 | pieces free of the separator, joined by it, split back into exactly those pieces |
| JsText.LowerIdempotent | functions/src/normalize.ts:8 | lower-casing twice is lower-casing once |
| JsText.LowerAscii | functions/lib/normalize.js:9 | lower-casing keeps ASCII text ASCII and leaves no upper-case letter |
| JsText.Lower | functions/src/normalize.ts:8 | `toLowerCase()` maps each character on its own, so the length is kept |
| JsText.Words | functions/src/normalize.ts:22 | the words that `\b…\b` delimits: the maximal runs of `\w` characters, in order; its properties are stated by Normalize.CanonicalJoin and Normalize.StripUnitWordsWords |
| JsText.TrimKeeps | functions/lib/ocr-parser.js:13 | trimming text made of one character class leaves text of that class |
| Normalize.NormalizeTs | functions/src/normalize.ts:5-27 | empty input gives ""; the result is canonical (only a-z, 0-9 and single inner spaces, no space at either end); no word of it is a unit, "pack" included |
| Normalize.NormalizeLib | functions/lib/normalize.js:4-24 | empty input gives ""; the result is canonical; no word of it is one of the lib units |
| Normalize.VocabulariesWellFormed | functions/src/normalize.ts:10-13 | every unit of both vocabularies is a non-empty lower-case word |
| Normalize.UnitAt | functions/src/normalize.ts:16 | a match of the unit alternation is followed by `\b` and stays inside the text |
| Normalize.UnitAtFinds | functions/src/normalize.ts:22 | a unit present at a position and followed by `\b` is matched with its own length |
| Normalize.UnitAtIsUnit | functions/src/normalize.ts:22 | whatever the alternation matches is one of the units |
| Normalize.StripQuantities | functions/src/normalize.ts:16 | the quantity pass (`\s*`, or in functions/lib/normalize.js:13 and :15 `\s+` and no gap) never lengthens the text: each match, at least one character, becomes one space |
| Normalize.QuantityAt | functions/src/normalize.ts:16 | a quantity match starts at a digit, is non-empty and has `\b` at both ends; QuantityAtShape states what it consists of |
| Normalize.QuantityAtShape | functions/lib/normalize.js:13-15 | whatever the quantity pass matches is digits, an optional `.digits`, whitespace the gap allows (`\s*`, `\s+` or none) and one of the units, ending the match; with QuantityMatched, the match is exactly the quantity shape |
| Normalize.QuantityMatched | functions/src/normalize.ts:16 | digits, an optional `.digits`, whitespace the gap allows and a unit with `\b` at both ends are matched whole ("500g", "2 l", "1.5l") |
| Normalize.QuantityRemoved | functions/lib/normalize.js:13-15 | such a quantity is replaced by one space and scanning resumes after it, with whitespace (`\s+`) and without it |
| Normalize.QuantityBlocked | functions/src/normalize.ts:16 | digits followed by a character that is not `.`, whitespace or a word character start no quantity |
| Normalize.StripQuantitiesNoDigits | functions/src/normalize.ts:16 | text without digits passes the quantity pass unchanged |
| Normalize.StripQuantitiesReplaces | functions/lib/normalize.js:15 | a match at the scan position becomes one space |
| Normalize.ReplacePunctuation | functions/src/normalize.ts:19 | each character outside `[a-z0-9\s]` becomes one space in place, the rest are kept, and the length is unchanged, so words never fuse |
| Normalize.StripUnitWordsWords | functions/src/normalize.ts:22-23 | the unit pass removes exactly the words that are units and keeps the others in order |
| Normalize.StripUnitWordsDropsUnit | functions/lib/normalize.js:19-20 | a whole word that is a unit becomes one space |
| Normalize.StripUnitWordsCopiesWord | functions/lib/normalize.js:19-20 | a whole word that is not a unit is copied |
| Normalize.UnitWordAtUnit | functions/src/normalize.ts:22 | `\b(units)\b` matches a unit word standing alone |
| Normalize.UnitWordAtNonUnit | functions/src/normalize.ts:22 | `\b(units)\b` matches nothing at a word that is not a unit, e.g. "grams" inside "gramsx" |
| Normalize.StripUnitWordsKeeps | functions/src/normalize.ts:19-23 | after punctuation removal the unit pass leaves only `[a-z0-9\s]` |
| Normalize.StripUnitWords | functions/src/normalize.ts:22-23 | the standalone-unit pass never lengthens the text: each unit word becomes one space |
| Normalize.CollapseSpaces | functions/src/normalize.ts:26 | `replace(/\s+/g, " ")` never lengthens the text; CollapseShape and CollapseWords state its result |
| Normalize.CollapseShape | functions/src/normalize.ts:26 | collapsing whitespace leaves single spaces only |
| Normalize.CollapseWords | functions/lib/normalize.js:22 | collapsing whitespace keeps the words |
| Normalize.TrimShape | functions/src/normalize.ts:26 | trimming single-spaced text makes it canonical |
| Normalize.TrimWords | functions/lib/normalize.js:22 | trimming keeps the words |
| Normalize.CanonicalJoin | functions/src/normalize.ts:26 | a canonical result is its words joined by single spaces |
| Normalize.FinishByWords | functions/src/normalize.ts:18-26 | the shared tail yields the words of the punctuation-free text minus the units, joined by single spaces |
| Normalize.Finish | functions/src/normalize.ts:18-26 | the steps both versions share after their quantity passes: punctuation, standalone units, whitespace, trim; FinishByWords states its result |
| Normalize.LibQuantities | functions/lib/normalize.js:12-15 | the two lib quantity passes, with whitespace (`\s+`) first and then without; QuantityRemoved states what they remove |
| Normalize.RemoveUnits | functions/src/normalize.ts:22-23 | the kept words are words of the input, none a unit |
| Normalize.RemoveUnitsKeeps | functions/lib/normalize.js:19-20 | every word that is not a unit is kept |
| Normalize.PackOnlyInLib | functions/src/normalize.ts:12 | "pack" never survives the TS normaliser; a word "pack" left after the lib quantity passes survives the lib normaliser |
| Normalize.NormalizeIgnoresCase | functions/src/normalize.ts:8 | both normalisers give the same result for a name and its lower-case form |
| Normalize.NormalizePlain | functions/src/normalize.ts:5-27 | a name whose lower-case form is plain words joined by single spaces (no digit, no punctuation, no unit) normalises to that lower-case form in both versions ("My Test" to "my test") |
| Edits.EditDistance | functions/src/similarity.ts:4-22 | the reference edit distance is at most the longer length and at least the difference of the lengths |
| Edits.EditDistanceEmpty | functions/lib/similarity.js:38-41 | the distance to the empty string is the other length, as the early returns give |
| Edits.EditDistanceSymmetric | functions/lib/similarity.js:37-65 | the distance does not depend on the order of the strings |
| Edits.EditDistanceZero | functions/src/similarity.ts:4-22 | the distance is 0 exactly for equal strings |
| Edits.MatchingLast | functions/src/similarity.ts:10-11 | when the last characters agree, copying the diagonal is optimal |
| Edits.PrefixStep | functions/src/similarity.ts:10-17 | the distance of prefixes follows the table's recurrence, minimum of substitution, insertion and deletion |
| Edits.CommonSuffix | functions/src/similarity.ts:10-11 | a common ending costs nothing: the distance is that of the two strings without it |
| Edits.EditDistanceSurplus | functions/src/similarity.ts:4-22 | for each character, the surplus of its occurrences in the second string over the first needs one insertion or substitution: the summed surplus is at most the distance |
| Edits.EditDistanceDisjoint | functions/src/similarity.ts:4-22 | a string of distinct characters none of which occurs in the other string is at least its own length away |
| Similarity.Levenshtein | functions/src/similarity.ts:4-22 | the table fill returns the edit distance of the two strings |
| Similarity.FillRow | functions/src/similarity.ts:9-19 | the inner loop fills row `i` with the edit distances of the prefixes, leaving the other rows as they were |
| Similarity.Table | functions/src/similarity.ts:5-19 | the table `matrix[i][j]` as a function of the prefix lengths, with the source's loop order; TableIsEditDistance states that it is the edit distance |
| Similarity.TableIsEditDistance | functions/lib/similarity.js:52-63 | every table entry equals the edit distance of the two prefixes |
| Similarity.LevenshteinLib | functions/lib/similarity.js:37-65 | the lib version, with its early returns on empty strings, returns the edit distance |
| Similarity.Tokenize | functions/lib/similarity.js:10-12 | `split(/\s+/)` gives at least one token |
| Similarity.TokenizeJoin | functions/lib/similarity.js:10-12 | splitting words joined by single spaces gives the words back |
| Similarity.TokenizeCanonical | functions/lib/similarity.js:92-93 | the tokens of a non-empty normalised name are exactly its words |
| Similarity.Jaccard | functions/lib/similarity.js:20-29 | shared distinct tokens over all distinct tokens lies in [0, 1]; it is 1 when both sets are empty |
| Similarity.JaccardProperties | functions/lib/similarity.js:20-29 | Jaccard similarity is symmetric and is 1 exactly when both token sets are equal |
| Similarity.Ratio | functions/lib/similarity.js:28 | a count over a positive count is non-negative, at most 1 when not larger, 1 only for equal counts and 0 only for 0 |
| Similarity.NormalizedLevenshtein | functions/lib/similarity.js:89-91 | `1 - distance / maxLen` (1 when both are empty) lies in [0, 1] |
| Similarity.NormalizedLevenshteinProperties | functions/src/similarity.ts:35-37 | the normalised similarity is 1 exactly for equal strings and is symmetric |
| Similarity.PrefixScore | functions/lib/similarity.js:82-88 | a prefix match of different lengths scores in [0.9, 1) |
| Similarity.Blend | functions/lib/similarity.js:97-99 | `0.6 * jaccard + 0.4 * lev` stays in [0, 1] |
| Similarity.LibScore | functions/lib/similarity.js:79-99 | the score of two normal forms lies in [0, 1] |
| Similarity.LibScoreProperties | functions/lib/similarity.js:79-99 | the score of normal forms is 1 exactly when they are equal, and is symmetric |
| Similarity.LibScorePrefix | functions/lib/similarity.js:82-88 | for a proper prefix the score is `0.9 + 0.1 * shorter / longer`, in [0.9, 1); an empty normal form scores exactly 0.9 |
| Similarity.LibScoreOther | functions/lib/similarity.js:89-99 | otherwise single-word names score the normalised Levenshtein similarity, and other names `0.6 * Jaccard(words) + 0.4 * lev` |
| Similarity.CombinedLib | functions/lib/similarity.js:73-100 | the lib combined similarity lies in [0, 1] |
| Similarity.CombinedLibProperties | functions/lib/similarity.js:73-81 | the score is 1 exactly when the names or their normal forms are equal, and is symmetric |
| Similarity.CombinedTs | functions/src/similarity.ts:24-38 | the TS combined similarity lies in [0, 1] |
| Similarity.TsScore | functions/src/similarity.ts:28-37 | the TS score of two normal forms lies in [0, 1] |
| Similarity.TsScoreProperties | functions/src/similarity.ts:28-37 | equal normal forms score 1 and only they do; a prefix either way scores a flat 0.9; otherwise the score is the normalised Levenshtein similarity, below 1; the score is symmetric |
| Similarity.CombinedTsProperties | functions/src/similarity.ts:24-28 | the TS score is 1 exactly when the normal forms are equal, and is symmetric |
| SimilarityCases.TsScoreByDistance | functions/src/similarity.ts:35-37 | two normal forms that are not prefixes of each other score `1 - distance / longer length` |
| SimilarityCases.LibScoreOfWords | functions/lib/similarity.js:89-91 | two single words that are not prefixes of each other score the bare character similarity in lib |
| SimilarityCases.CombinedByNormal | functions/src/similarity.ts:24-28 | distinct raw names are scored by their normal forms, in both versions |
| SimilarityCases.DistanceTestToast | functions/src/similarity.ts:4-22 | "test" and "toast" after any common beginning are exactly two edits apart |
| SimilarityCases.LibAfterWord | functions/lib/similarity.js:92-99 | "w test" against "w toast" scores `0.6 * 1/3 + 0.4 * (1 - 2 / (|w| + 6))` in lib |
| SimilarityCases.ScoresBySuffix | functions/src/similarity.ts:35-37 | two words `x + s` and `y + s` that differ at some position, where `y` has distinct letters none in `x` and is at least as long, score `1 - |y| / longer length` in both versions |
| SimilarityCases.PrefixScores | functions/lib/similarity.js:82-88 | a name against itself extended, in either order, scores 0.9 in TS and `0.9 + 0.1 * shorter / longer` in lib |
| SimilarityCases.ScoreApple | functions/src/__tests__/similarity.test.ts:4-6 | 'apple' against itself scores 1; 'apple inc' against 'apple', either way, 0.9 in TS and 0.9 + 0.1 * 5/9 in lib: at least the expected 1.0 and 0.9 |
| SimilarityCases.ScoreBanana | functions/src/__tests__/similarity.test.ts:7 | 'bananas' against 'banana' scores 0.9 in TS and 0.9 + 0.1 * 6/7 in lib, at least the expected 0.9 |
| SimilarityCases.ScoreCherry | functions/lib/__tests__/similarity.test.js:14 | 'cherry' against 'strawberry' scores 0.4 in both versions: at least the TS suite's 0.2 and below the lib suite's maximum 0.5 |
| SimilarityCases.ScoreGrape | functions/src/__tests__/similarity.test.ts:9 | 'grapes' against 'grape' scores 0.9 in TS and 0.9 + 0.1 * 5/6 in lib, at least the expected 0.9 |
| SimilarityCases.ScoreTestToast | functions/src/__tests__/similarity.test.ts:10 | 'test' against 'toast' scores 0.6 in both versions, at least the expected 0.5 |
| SimilarityCases.ScoreMyTest | functions/lib/__tests__/similarity.test.js:12 | 'My Test' against 'My Toast' scores 0.75 in TS and exactly 0.5 in lib, the expected minimum 0.5 |
| LineItems.SingleItem | functions/lib/ocr-parser.js:15-20 | a parsed line gives quantity 1 and a total price equal to the unit price |
| LineItems.DigitValue | functions/lib/ocr-parser.js:12 | one digit is worth less than 10 |
| LineItems.Numeral | functions/lib/ocr-parser.js:12 | the decimal numeral of a number is a non-empty digit run without a leading zero |
| LineItems.DigitsValueOfNumeral | functions/lib/ocr-parser.js:12 | `parseFloat` of a number's numeral gives the number back |
| LineItems.Price | functions/src/receiptParser.ts:24 | `parseFloat("d+.dd")` is exactly the digits read in hundredths, and is not negative |
| LineItems.Present | functions/lib/ocr-parser.js:8-23 | the collected items are at most one per line |
| LineItems.PresentAppend | functions/lib/ocr-parser.js:8-23 | the items of two blocks of lines are the first block's followed by the second's |
| LineItems.PresentEmpty | functions/lib/ocr-parser.js:24 | no item is collected exactly when no line yields one |
| LineItems.PresentMembers | functions/lib/ocr-parser.js:8-23 | the collected items are exactly the items the lines yield |
| OcrParser.LeftmostPrice | functions/lib/ocr-parser.js:7-9 | a match of `(\d+\.\d{2})|(\d+)` is a non-empty slice of the line |
| OcrParser.LeftmostPriceAtFirstDigit | functions/lib/ocr-parser.js:7-9 | there is a match exactly when the line has a digit; it starts at the first digit; its price is not negative |
| OcrParser.OcrLineItem | functions/lib/ocr-parser.js:9-21 | the item of one line: the leftmost price and the trimmed text before it, nothing without a price or a name; OcrLineItemShape, IntegerPrice and DecimalPrice state its result |
| OcrParser.OcrLineItemShape | functions/lib/ocr-parser.js:10-21 | an item has quantity 1, equal unit and total price that is not negative, and a trimmed, non-empty, digit-free name |
| OcrParser.OcrItems | functions/lib/ocr-parser.js:8-23 | there are at most as many items as lines |
| OcrParser.OcrResult | functions/lib/ocr-parser.js:4-33 | the result is never empty |
| OcrParser.ParseOcrText | functions/lib/ocr-parser.js:4-33 | the loop and the sentinel push return the line items in order, or the unknown item alone |
| OcrParser.OcrItemsAppend | functions/lib/ocr-parser.js:8-23 | the items of two blocks of lines are the first block's items followed by the second's |
| OcrParser.OcrItemsOfOneLine | functions/lib/ocr-parser.js:10-21 | one line yields its own item or nothing |
| OcrParser.OcrItemsEmpty | functions/lib/ocr-parser.js:24 | the loop collects nothing exactly when no line yields an item |
| OcrParser.OcrItemsFromLines | functions/lib/ocr-parser.js:8-23 | every item comes from a line and every line's item is there |
| OcrParser.OcrResultCases | functions/lib/ocr-parser.js:24-32 | the unknown item at price 0 is returned alone when no line yields an item, and never beside real items |
| OcrParser.NoDigitNoItem | functions/lib/ocr-parser.js:10 | a line without digits, a blank line in particular, yields nothing |
| OcrParser.NoNameNoItem | functions/lib/ocr-parser.js:14 | a line whose first digit has only whitespace before it ("12.99") yields nothing |
| OcrParser.IntegerPrice | functions/lib/ocr-parser.js:7-21 | digit-free text, then digits not followed by `.dd`, yields the trimmed text priced at the integer |
| OcrParser.DecimalPrice | functions/lib/ocr-parser.js:7-21 | digit-free text then `d+.dd` yields the trimmed text priced at the decimal, whatever follows |
| OcrParser.DigitRunAt | functions/lib/ocr-parser.js:7 | in such a line the first digit and its run are where the text ends |
| ReceiptParser.NonBlankLines | functions/src/receiptParser.ts:15 | filtering keeps at most all lines |
| ReceiptParser.NonBlankLinesKeep | functions/src/receiptParser.ts:15 | a line is kept exactly when its trimmed form is not empty |
| ReceiptParser.FirstNonBlankLine | functions/src/receiptParser.ts:15-16 | the first kept line is the first non-blank line |
| ReceiptParser.AllBlank | functions/src/receiptParser.ts:15 | nothing is kept exactly when every line is blank |
| ReceiptParser.ShopName | functions/src/receiptParser.ts:16 | no shop name without lines; otherwise a prefix of the first line of at most 60 characters, the whole line when it is short enough |
| ReceiptParser.ShopNameOfText | functions/src/receiptParser.ts:15-16 | the shop name is absent exactly when every line is blank, and is otherwise the first non-blank line, untrimmed, cut to 60 characters |
| ReceiptParser.TrailingPrice | functions/src/receiptParser.ts:19-22 | a match of `(\d+\.\d{2})$` starts inside the line |
| ReceiptParser.TrailingPriceShape | functions/src/receiptParser.ts:19-22 | there is a match exactly when the line ends in digits, a point and two digits; it starts at the start of that digit run, with no digit before it; the price is not negative |
| ReceiptParser.TrailingPriceAt | functions/src/receiptParser.ts:19-22 | a digit run before the final `.dd`, not preceded by a digit, is where the match starts |
| ReceiptParser.ReceiptLineItem | functions/src/receiptParser.ts:22-33 | the item of one line: the trailing `d+.dd` price and the trimmed text before it, nothing without either; ReceiptLineItemShape and TrailingPriceItem state its result |
| ReceiptParser.ReceiptLineItemShape | functions/src/receiptParser.ts:22-33 | an item comes only from a line ending in a price; it has quantity 1, total equal to unit price, a non-negative price and a trimmed non-empty name |
| ReceiptParser.TrailingPriceItem | functions/src/receiptParser.ts:22-33 | text not ending in a digit, then `d+.dd`, yields the trimmed text priced at the decimal ("Apples 1kg 150.00" gives "Apples 1kg" at 150) |
| ReceiptParser.ReceiptItems | functions/src/receiptParser.ts:21-35 | there are at most as many items as kept lines |
| ReceiptParser.ReceiptItemsOfOneLine | functions/src/receiptParser.ts:22-34 | one line yields its own item or nothing |
| ReceiptParser.ReceiptItemsAppend | functions/src/receiptParser.ts:21-35 | the items of two blocks of lines are the first block's followed by the second's |
| ReceiptParser.ReceiptItemsEmpty | functions/src/receiptParser.ts:18-37 | there is no fallback: the list is empty exactly when no line yields an item |
| ReceiptParser.ReceiptItemsFromLines | functions/src/receiptParser.ts:21-35 | every item comes from a kept line and every kept line's item is there, the shop line and a "Total:" line included |
| ReceiptParser.CollectItems | functions/src/receiptParser.ts:18-35 | the loop pushes exactly the items the kept lines yield, in order |
| ReceiptParser.ReceiptOf | functions/src/receiptParser.ts:15-37 | the receipt as a function of the text, which ParseReceipt returns and ParserCases.ReceiptShape evaluates |
| ReceiptParser.ParseReceipt | functions/src/receiptParser.ts:6-38 | the result is the shop name and the items of the kept lines |
| ParserCases.OcrBread | functions/lib/__tests__/ocr.test.js:16-18 | 'Bread 2' yields Bread at the integer price 2 |
| ParserCases.OcrCheese | functions/lib/__tests__/ocr.test.js:16-19 | 'Cheese 5' yields Cheese at 5 |
| ParserCases.OcrApples | functions/lib/__tests__/ocr.test.js:7-9 | 'Apples 2.50' yields Apples at 2.5 |
| ParserCases.OcrBananas | functions/lib/__tests__/ocr.test.js:7-10 | 'Bananas 1.00' yields Bananas at 1 |
| ParserCases.OcrMilk | functions/lib/__tests__/ocr.test.js:7-11 | 'Milk 3.25' yields Milk at 3.25 |
| ParserCases.OcrItemA | functions/lib/__tests__/ocr.test.js:24-26 | '  Item A   10.00  ' yields 'Item A' at 10: the name is trimmed and the spaces after the price are ignored |
| ParserCases.OcrItemB | functions/lib/__tests__/ocr.test.js:24-27 | 'Item B  5.50' yields 'Item B' at 5.5 |
| ParserCases.OcrNameless | functions/lib/__tests__/ocr.test.js:39 | '12.99' yields nothing: there is no name before the price |
| ParserCases.OcrRandomText | functions/lib/__tests__/ocr.test.js:32 | a line without digits yields nothing |
| ParserCases.OcrEmptyLine | functions/lib/ocr-parser.js:10 | the empty line yields nothing |
| ParserCases.OcrOfJoin | functions/lib/ocr-parser.js:4-33 | the result for a text whose lines are given: their items, or the unknown item alone when there are none |
| ParserCases.OcrItemsConsItem | functions/lib/ocr-parser.js:8-23 | a first line with an item puts it before the items of the lines after it |
| ParserCases.OcrItemsConsNone | functions/lib/ocr-parser.js:8-23 | a first line without an item adds nothing |
| ParserCases.OcrThreeLines | functions/lib/ocr-parser.js:4-33 | three item lines, each ended by a line feed, give their three items in order |
| ParserCases.OcrTwoLines | functions/lib/ocr-parser.js:4-33 | two item lines, each ended by a line feed, give their two items in order |
| ParserCases.OcrTwoLinesApart | functions/lib/ocr-parser.js:4-33 | two item lines with an empty line between them give their two items in order |
| ParserCases.OcrNoItemLine | functions/lib/ocr-parser.js:24-32 | one line without an item, with or without a final line feed, gives the unknown item alone |
| ParserCases.OcrGroceryList | functions/lib/__tests__/ocr.test.js:5-13 | 'Apples 2.50\nBananas 1.00\nMilk 3.25\n' gives Apples at 2.5, Bananas at 1 and Milk at 3.25, each of quantity 1 and total equal to its price |
| ParserCases.OcrIntegerPrices | functions/lib/__tests__/ocr.test.js:14-21 | 'Bread 2\nCheese 5\n' gives Bread at 2 and Cheese at 5 |
| ParserCases.OcrEmptyLinesAndSpaces | functions/lib/__tests__/ocr.test.js:22-29 | '  Item A   10.00  \n\nItem B  5.50\n' gives 'Item A' at 10 and 'Item B' at 5.5 |
| ParserCases.OcrUnparsable | functions/lib/__tests__/ocr.test.js:30-36 | text without prices gives the unknown item alone |
| ParserCases.OcrNoName | functions/lib/__tests__/ocr.test.js:37-43 | '12.99\n' gives the unknown item alone |
| ParserCases.ReceiptApples | functions/src/__tests__/receiptParser.test.ts:6 | 'Apples 1kg 150.00' yields 'Apples 1kg' at 150: the quantity stays in the name |
| ParserCases.ReceiptBread | functions/src/__tests__/receiptParser.test.ts:8 | 'Bread 45.50' yields Bread at 45.5 |
| ParserCases.ReceiptTotal | functions/src/__tests__/receiptParser.test.ts:9 | 'Total: 255.50' yields 'Total:' at 255.5: the total line is an item like any other |
| ParserCases.ReceiptMilk | functions/src/__tests__/receiptParser.test.ts:7 | 'Milk 2L 60' yields nothing: its price has no two decimals |
| ParserCases.ReceiptAddress | functions/src/__tests__/receiptParser.test.ts:5 | 'Indiranagar, Bangalore' yields nothing |
| ParserCases.ReceiptShopLine | functions/src/__tests__/receiptParser.test.ts:4 | 'BIG BAZAAR' yields nothing |
| ParserCases.NotBlank | functions/src/receiptParser.ts:15 | a line whose first character is not white space is not blank |
| ParserCases.KeepLine | functions/src/receiptParser.ts:15 | a non-blank first line stays in front of the kept lines after it |
| ParserCases.DropLine | functions/src/receiptParser.ts:15 | a blank first line is dropped |
| ParserCases.ReceiptItemsConsItem | functions/src/receiptParser.ts:21-35 | a first line with an item puts it before the items of the lines after it |
| ParserCases.ReceiptItemsConsNone | functions/src/receiptParser.ts:21-35 | a first line without an item adds nothing |
| ParserCases.KeptOfShape | functions/src/receiptParser.ts:15 | of a blank line, six lines starting with a non-space character and a final empty line, the six are kept |
| ParserCases.ItemsOfShape | functions/src/receiptParser.ts:21-35 | of six lines of which the third, fifth and sixth yield items, those three items are collected in order |
| ParserCases.ReceiptShape | functions/src/receiptParser.ts:6-38 | a text of that shape parses to the shop name of its first kept line and the three items |
| ParserCases.ReceiptTestShop | functions/src/receiptParser.ts:16 | the shop name of the test receipt's kept lines is 'BIG BAZAAR' |
| ParserCases.ReceiptTestText | functions/src/__tests__/receiptParser.test.ts:3-42 | the test receipt parses to shop 'BIG BAZAAR' and three items, 'Apples 1kg' at 150, Bread at 45.5 and 'Total:' at 255.5: the shop name, the count 3 and the Apples price the suite checks |
| Aggregations.CreateExampleId | functions/src/aggregations.ts:6-11 | the id is a prefix of the digest of the normalised name followed by the raw name, 10 characters long when the digest is (a hex SHA-1 digest has 40) |
| Aggregations.KeyInjective | functions/src/aggregations.ts:36-38 | for one shop, `${shopId}_${normalizedName}` ids are distinct for distinct names |
| Aggregations.ShopKey | functions/src/aggregations.ts:36-38 | the shop document id `${shopId}_${normalizedName}`; KeyInjective, ShopKeysApart and ShopKeysCollide state when ids differ |
| Aggregations.ShopKeysApart | functions/src/aggregations.ts:36-38 | ids of two different shops whose ids have no `_` never coincide |
| Aggregations.ShopKeysCollide | functions/src/aggregations.ts:38 | with `_` in a shop id two shops can share a document id: shop "a" with name "b_c" and shop "a_b" with name "c" |
| Aggregations.ValidItems | functions/src/aggregations.ts:26 | filtering keeps at most all items |
| Aggregations.ValidItemsKeep | functions/lib/aggregations.js:40 | an item is kept exactly when its unit price is positive |
| Aggregations.ValidItemsPositive | functions/src/aggregations.ts:26 | every kept item has a positive price |
| Aggregations.Least | functions/src/aggregations.ts:61 | `Math.min` is at most both arguments and is one of them |
| Aggregations.Created | functions/src/aggregations.ts:41-52 | the document set on a first sight: occurrences 1 and the price as sum, minimum and average; UpsertValid states that it is valid |
| Aggregations.Updated | functions/src/aggregations.ts:53-65 | the update by one more price: occurrences and sum incremented, `Math.min`, and the recomputed average; UpdatedAverage and UpsertValid state its result |
| Aggregations.Upsert | functions/src/aggregations.ts:36-65 | the document at the key is created when absent and updated when present, as UpsertAllCounts and UpsertAllKeeps state |
| Aggregations.UpsertAll | functions/src/aggregations.ts:32-66 | the items upserted in order, each under the prefix and its name; UpsertAllCounts, UpsertAllMinimum, UpsertAllKeeps, UpsertAllFrame and DocumentGrows state its result |
| Aggregations.ExampleKeyOf | functions/src/aggregations.ts:101-106 | an item's example lives under its normalised name at `createExampleId(normalizedName, rawName)` |
| Aggregations.Seen | functions/src/aggregations.ts:109-120 | the example is created with count 1 and the raw name, or counted once more; SeenAllDelta states the result |
| Aggregations.SeenAll | functions/src/aggregations.ts:100-120 | the examples of the items counted in order; SeenAllDelta and SeenAllValid state its result |
| Aggregations.Aggregate | functions/src/aggregations.ts:32-121 | each item updates its shop document, its global document and its example, seeing what the items before it left; AggregateStep, AggregateValid and AggregateKeepsSum state its result |
| Aggregations.Count | functions/src/aggregations.ts:32 | the items of a name are at most all items |
| Aggregations.CountZero | functions/src/aggregations.ts:32 | no item has the name exactly when its count is zero |
| Aggregations.LowestPriceIsLowest | functions/lib/aggregations.js:67 | the lowest price of a name is at most every price of the name and is one of them |
| Aggregations.UpsertAllCounts | functions/src/aggregations.ts:41-65 | after a batch, a name's document exists, its occurrences grew by the number of items of that name, and its sum grew by their prices |
| Aggregations.UpsertAllMinimum | functions/lib/aggregations.js:63-75 | the new minimum is `Math.min` of the old minimum, if any, and the lowest price of the name in the batch |
| Aggregations.UpsertAllKeeps | functions/src/aggregations.ts:41-65 | an existing document keeps its shop id, name, category and unit; a new one takes the shop id and name; in both cases avg * occurrences = sum |
| Aggregations.UpdatedAverage | functions/src/aggregations.ts:56-62 | the recomputed average `newSum / newOccurrences` times the new occurrences is the new sum |
| Aggregations.Unnamed | functions/src/aggregations.ts:36-38 | when no item has a name, no item names that name's document |
| Aggregations.UpsertAllFrame | functions/src/aggregations.ts:32-121 | a document whose id no item names is untouched, whether absent or present |
| Aggregations.UpsertValid | functions/src/aggregations.ts:41-65 | a create or update with a positive price keeps occurrences >= 1, avg * occurrences = sum, 0 < min and min * occurrences <= sum |
| Aggregations.UpsertAllValid | functions/lib/aggregations.js:44-125 | a batch of positive prices keeps every statistics document's invariant |
| Aggregations.UpsertAllMirrors | functions/src/aggregations.ts:68-98 | the shop and global upserts of the same items keep a name's two documents equal except for the shop id |
| Aggregations.SeenAllDelta | functions/lib/aggregations.js:105-123 | an example is counted once per item naming it, starting from 1; an existing example keeps its raw name; a new one takes the raw name of an item naming it; the others are untouched |
| Aggregations.Sightings | functions/src/aggregations.ts:100-120 | an example is named by at most all items |
| Aggregations.SeenAllValid | functions/src/aggregations.ts:109-120 | example counts stay positive |
| Aggregations.AggregateValid | functions/src/aggregations.ts:26-121 | a batch of positive prices keeps the invariants of all three collections |
| Aggregations.NoValidItemsNoChange | functions/src/aggregations.ts:26-29 | a batch without a positive price changes nothing |
| Aggregations.GlobalGrowsWithShop | functions/src/aggregations.ts:32-98 | one call adds to a name's global document exactly what it adds to the shop's document of that name: the item count and the price total |
| Aggregations.TotalZero | functions/src/aggregations.ts:57 | a name without items adds nothing to the sum |
| Aggregations.FreshGlobalMirrorsShop | functions/src/aggregations.ts:36-98 | from a store without either document, one call leaves the global document equal to the shop document without its shop id |
| Aggregations.AggregateStep | functions/src/aggregations.ts:32-121 | folding in one more item is one upsert of the shop, global and example collections |
| Aggregations.Lower | functions/src/aggregations.ts:61 | `Math.min` over the minima present: absent exactly when both are, at most each present one, and one of them |
| Aggregations.PlusLaws | functions/src/aggregations.ts:56-61 | adding the occurrences, the sums and taking the least minimum is commutative and associative, with the absent document as identity |
| Aggregations.DocumentGrows | functions/src/aggregations.ts:32-66 | a batch adds its occurrences, price total and least price for a name to that name's document |
| Aggregations.OtherShopUnchanged | functions/src/aggregations.ts:36-38 | a call for one shop leaves the documents of every other shop (ids without `_`) as they were |
| Aggregations.ShopTotalsHasMinimum | functions/src/aggregations.ts:61 | the shop documents of a name, over a list of shops, have a least minimum exactly when one of them exists |
| Aggregations.ShopTotalsMinimumLeast | functions/src/aggregations.ts:61 | that least minimum is at most the minimum of every shop document of the name |
| Aggregations.ShopTotalsMinimumAttained | functions/src/aggregations.ts:61 | when there is a least minimum, some shop has a document of the name |
| Aggregations.ShopTotalsSame | functions/src/aggregations.ts:36-66 | shop documents that did not change add up to what they did before |
| Aggregations.ShopTotalsBump | functions/src/aggregations.ts:36-66 | when only one listed shop's document grew, the totals over the shops grew by the same amount |
| Aggregations.ShopTotalsAfterCall | functions/src/aggregations.ts:36-66 | after a call for one shop, the totals over the shops, with that shop added if new, grew by what the call added to its document |
| Aggregations.AggregateKeepsSum | functions/src/aggregations.ts:32-121 | one call for a shop id without `_` keeps every name's global document the sum of its shop documents over the shops called |
| Aggregations.ReplayGlobalIsSumOfShops | functions/src/aggregations.ts:13-123 | after any calls from the empty store, with shop ids free of `_`, each name's global occurrences and price sum are those of its shop documents added over the shops called, and no other shop has a document of it |
| Aggregations.ReplayGlobalMinimum | functions/src/aggregations.ts:61 | after such calls a name has a global document exactly when some shop called has one, and then the global minimum is at most every shop minimum and equals one of them |
| Aggregations.AggregationStore.constructor | functions/src/aggregations.ts:24 | the three collections start empty, and the store invariant holds |
| Aggregations.AggregationStore.UpdateAggregationsForBillItems | functions/src/aggregations.ts:13-123 | the collections become the fold of the positive-price items into the old ones, returning at once if there are none; the invariants are kept |
| Aggregations.AggregationStore.UpsertShopItemStats | functions/src/aggregations.ts:35-66 | the shop document is created with the price or updated by it; the other collections are unchanged |
| Aggregations.AggregationStore.UpsertGlobalItemStats | functions/lib/aggregations.js:76-103 | the global document is created or updated the same way, keyed by the name alone |
| Aggregations.AggregationStore.CountRawExample | functions/lib/aggregations.js:104-123 | the example is created with count 1 or has its count incremented; its raw name is never overwritten |

## Left out

- Firestore is not modelled. That covers transactions, retries, concurrent calls, document reads and writes as I/O, and the `serverTimestamp` fields `lastUpdatedAt` and `lastSeenAt`. The batch is a sequential fold. A real Firestore transaction does not let a read observe the transaction's own earlier writes, so claims about batches that repeat a key describe the fold, not Firestore.
- SHA-1 is a parameter (`sha1Hex`), not computed. The fact that different raw names give different ids is a property of the hash and is not proved. That includes "milk" vs "MILK", and ("apple", "Apple 1kg") vs ("apple", "Apples"). The id depends only on `normalizedName + rawName`; within one normalised name's sub-collection, that means only on the raw name.
- Aggregations.CreateExampleId: proves length 10 only when the digest has at least 10 characters. The 40-hex-digit shape of SHA-1 output is not modelled.
- Aggregations.GlobalGrowsWithShop: states one call, as equal growth of a name's global document and the calling shop's document. The sum over all shops across many calls is stated separately by ReplayGlobalIsSumOfShops and ReplayGlobalMinimum, from an empty store and only for shop ids without `_`.
- Shop document ids of different shops are distinct only when the shop ids have no `_` (ShopKeysApart). `${shopId}_${normalizedName}` can collide otherwise (ShopKeysCollide), and two shops then share one document, so the sum over shops holds only under that hypothesis. Within one call all ids share the shop id and are distinct (KeyInjective).
- Floating point: scores and prices are exact rationals. IEEE rounding, for example in `0.9 + 0.1 * ratio`, is not modelled.
- Unicode: the normalisers and similarity scores require ASCII input. Non-ASCII `toLowerCase` and case folding are not modelled.
- ReceiptParser.ShopName: cuts the first kept line at 60 Unicode scalar values, while `substring(0, 60)` cuts at 60 UTF-16 code units. The two agree on text without characters outside the Basic Multilingual Plane. A line of 31 "🛒" is 62 code units: the source keeps 30 of them, the model keeps all 31. A cut through a surrogate pair, which the source can make, has no counterpart here.
- ReceiptParser.ShopNameOfText: the same 60-character cut, counted in Unicode scalar values rather than UTF-16 code units, as for ShopName.
- The examples of the repository's tests are stated as lemmas: every similarity pair of both suites (SimilarityCases), every text of the OCR suite and the receipt of the receipt suite (ParserCases). The multi-line test texts are stated as their lines joined by line feeds, which they are; only 'Bread 2\nCheese 5\n' and the one-line texts are also given literally. The normaliser is not evaluated on names with quantities or punctuation, such as "Apples 1kg" or "a 2-pack of items": QuantityMatched, QuantityRemoved and PackOnlyInLib state the general rules instead. For 'My Test' against 'My Toast' the lib score is 0.6 * 1/3 + 0.4 * 0.75 = 0.5; in IEEE doubles the two products round to 0.19999999999999998 and 0.30000000000000004, whose sum rounds to 0.5 as well, so the suite's `>= 0.5` holds there too.
- Idempotence of normalisation is not claimed, because it does not hold. "_5kg" normalises to "5kg", since `_` is a word character and so no `\b` precedes the digit; a second pass then gives "".
- Similarity.CombinedLib and Similarity.CombinedTs: they use the edit-distance function rather than calling the table-filling methods. Levenshtein and LevenshteinLib are proved to return that function.
- The HTTP handlers and queries in functions/lib/api.js and functions/src/api.ts are not part of this model, nor is the OCR entry point in functions/src/ocr.ts or the inline parser in functions/src/index.ts.
- Known mismatches between the repository's tests and its code:
  - functions/src/__tests__/aggregations.test.ts expects a transaction to run for a batch without valid items, while the code returns first. The model follows the code: NoValidItemsNoChange.
  - functions/lib/__tests__/receiptParser.test.js expects a trimmed shop name, which functions/src/receiptParser.ts:16 does not produce. The model keeps the untrimmed prefix.
  - The '2-pack' expectation holds only for the lib normaliser.
