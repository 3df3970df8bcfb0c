/**
  * `parseReceipt` of functions/src/receiptParser.ts: blank lines are dropped, the first
  * remaining line (cut to 60 characters) is the shop name, and every line ending in a price
  * `d+.dd` becomes an item named by the trimmed text before the price. There is no fallback item.
  */
module ReceiptParser {
  import opened JsText
  import opened LineItems

  /** `lines.filter((line) => line.trim().length > 0)`. */
  function NonBlankLines(lines: seq<string>): (kept: seq<string>)
    ensures |kept| <= |lines|
  {
    if lines == [] then []
    else (if Trim(lines[0]) != "" then [lines[0]] else []) + NonBlankLines(lines[1..])
  }

  /** A line is kept exactly when it is not blank. */
  lemma {:induction false} NonBlankLinesKeep(lines: seq<string>, line: string)
    ensures line in NonBlankLines(lines) <==> line in lines && Trim(line) != ""
  {
    if lines != [] {
      NonBlankLinesKeep(lines[1..], line);
      assert lines == [lines[0]] + lines[1..];
    }
  }

  /** The first kept line is the first line that is not blank. */
  lemma {:induction false} FirstNonBlankLine(lines: seq<string>, k: nat)
    requires k < |lines| && Trim(lines[k]) != ""
    requires forall j :: 0 <= j < k ==> Trim(lines[j]) == ""
    ensures NonBlankLines(lines) != [] && NonBlankLines(lines)[0] == lines[k]
  {
    if k > 0 {
      FirstNonBlankLine(lines[1..], k - 1);
    }
  }

  /** Nothing is kept exactly when every line is blank. */
  lemma {:induction false} AllBlank(lines: seq<string>)
    ensures NonBlankLines(lines) == [] <==> forall j :: 0 <= j < |lines| ==> Trim(lines[j]) == ""
  {
    if lines != [] {
      AllBlank(lines[1..]);
      assert forall j :: 1 <= j < |lines| ==> lines[1..][j - 1] == lines[j];
    }
  }

  /** `lines[0]?.substring(0, 60)`: a prefix of at most 60 characters of the first line. */
  function ShopName(lines: seq<string>): (name: Option<string>)
    ensures name.None? <==> lines == []
    ensures name.Some? ==> |name.value| <= 60 && name.value <= lines[0]
    ensures name.Some? && |lines[0]| <= 60 ==> name.value == lines[0]
  {
    if lines == [] then None else Some(lines[0][..if |lines[0]| <= 60 then |lines[0]| else 60])
  }

  /**
    * Where `(\d+\.\d{2})$` matches: the line ends in a point and two digits after a digit run,
    * and the leftmost match starts where that run starts.
    */
  function TrailingPrice(line: string): (m: Option<PriceMatch>)
    ensures m.Some? ==> m.value.start < |line|
  {
    var n := |line|;
    if n >= 4 && line[n - 3] == '.' && IsDigit(line[n - 2]) && IsDigit(line[n - 1]) && IsDigit(line[n - 4]) then
      var p := n - 3 - SpanBack(line, n - 3, Digit);
      DigitRunBefore(line, p, n - 3);
      Some(PriceMatch(p, n, Price(line[p..n - 3], line[n - 2], line[n - 1])))
    else None
  }

  lemma DigitRunBefore(line: string, p: nat, e: nat)
    requires e <= |line| && p == e - SpanBack(line, e, Digit)
    ensures AllOf(line[p..e], Digit)
  {
    forall k | 0 <= k < e - p ensures InClass(line[p..e][k], Digit) {
      assert line[p..e][k] == line[p + k];
    }
  }

  /** The line ends in at least one digit, a point and two digits. */
  predicate EndsWithPrice(line: string) {
    var n := |line|;
    n >= 4 && IsDigit(line[n - 4]) && line[n - 3] == '.' && IsDigit(line[n - 2]) && IsDigit(line[n - 1])
  }

  /**
    * A match exists exactly when the line ends in a price; it starts at the beginning of the
    * digit run before the point, after a non-digit or at the start of the line.
    */
  lemma TrailingPriceShape(line: string)
    ensures TrailingPrice(line).Some? <==> EndsWithPrice(line)
    ensures TrailingPrice(line).Some? ==>
              var m := TrailingPrice(line).value;
              m.start + 3 < |line| && AllIn(line, m.start, |line| - 3, Digit)
              && (m.start == 0 || !IsDigit(line[m.start - 1])) && 0.0 <= m.price
  {
  }

  /** The item one line yields: the trimmed text before the price, when that text is not empty. */
  function ReceiptLineItem(line: string): Option<Item> {
    match TrailingPrice(line)
    case None => None
    case Some(m) =>
      var rawName := Trim(line[..m.start]);
      if rawName == "" then None else Some(SingleItem(rawName, m.price))
  }

  /**
    * A line yields an item only when it ends in a price; the item has quantity 1, equal unit
    * and total price that is not negative, and a trimmed, non-empty name.
    */
  lemma ReceiptLineItemShape(line: string)
    ensures var item := ReceiptLineItem(line);
            item.Some? ==> EndsWithPrice(line) && item.value.quantity == 1
                           && item.value.unitPrice == item.value.totalPrice
                           && 0.0 <= item.value.unitPrice && ValidName(item.value.rawName)
  {
    TrailingPriceShape(line);
  }

  /**
    * Text, a digit run, a point and two digits yield the trimmed text priced at that number,
    * provided the text does not end in a digit (which would lengthen the run).
    */
  lemma TrailingPriceItem(name: string, ds: string, tenths: char, hundredths: char)
    requires Trim(name) != "" && (name == [] || !IsDigit(name[|name| - 1]))
    requires AllOf(ds, Digit) && ds != [] && IsDigit(tenths) && IsDigit(hundredths)
    ensures ReceiptLineItem(name + ds + ['.', tenths, hundredths])
              == Some(SingleItem(Trim(name), Price(ds, tenths, hundredths)))
  {
    var line := name + ds + ['.', tenths, hundredths];
    var e := |name| + |ds|;
    assert AllIn(line, |name|, e, Digit) by {
      forall k | |name| <= k < e ensures InClass(line[k], Digit) {
        assert line[k] == ds[k - |name|];
      }
    }
    if name != [] {
      assert line[|name| - 1] == name[|name| - 1];
    }
    TrailingPriceAt(line, |name|);
    assert line[..|name|] == name && line[|name|..e] == ds;
    assert line[e + 1] == tenths && line[e + 2] == hundredths;
  }

  /** A digit run before the final point and two digits, not preceded by a digit, is the match. */
  lemma TrailingPriceAt(line: string, p: nat)
    requires p + 3 < |line| && line[|line| - 3] == '.' && IsDigit(line[|line| - 2]) && IsDigit(line[|line| - 1])
    requires AllIn(line, p, |line| - 3, Digit) && (p == 0 || !IsDigit(line[p - 1]))
    ensures TrailingPrice(line).Some? && TrailingPrice(line).value.start == p
  {
    var n := |line|;
    assert IsDigit(line[n - 4]);
    SpanBackExact(line, n - 3, n - 3 - p, Digit);
  }

  /** The items of a sequence of lines, one per line that yields one, in line order. */
  function ReceiptItems(lines: seq<string>): (items: seq<Item>)
    ensures |items| <= |lines|
  {
    Present(seq(|lines|, k requires 0 <= k < |lines| => ReceiptLineItem(lines[k])))
  }

  lemma ReceiptItemsOfOneLine(line: string)
    ensures ReceiptItems([line]) == if ReceiptLineItem(line).Some? then [ReceiptLineItem(line).value] else []
  {
    var results := seq(1, k requires 0 <= k < 1 => ReceiptLineItem([line][k]));
    assert results == [ReceiptLineItem(line)];
    assert results[..0] == [];
  }

  /** The items of two blocks of lines are the items of the first block, then those of the second. */
  lemma ReceiptItemsAppend(first: seq<string>, second: seq<string>)
    ensures ReceiptItems(first + second) == ReceiptItems(first) + ReceiptItems(second)
  {
    var all := first + second;
    var results := seq(|all|, k requires 0 <= k < |all| => ReceiptLineItem(all[k]));
    var firsts := seq(|first|, k requires 0 <= k < |first| => ReceiptLineItem(first[k]));
    var seconds := seq(|second|, k requires 0 <= k < |second| => ReceiptLineItem(second[k]));
    assert results == firsts + seconds;
    PresentAppend(firsts, seconds);
  }

  /** There is no fallback: the list is empty exactly when no line yields an item. */
  lemma ReceiptItemsEmpty(lines: seq<string>)
    ensures ReceiptItems(lines) == [] <==> forall k :: 0 <= k < |lines| ==> ReceiptLineItem(lines[k]).None?
  {
    var results := seq(|lines|, k requires 0 <= k < |lines| => ReceiptLineItem(lines[k]));
    PresentEmpty(results);
    assert forall k :: 0 <= k < |lines| ==> results[k] == ReceiptLineItem(lines[k]);
  }

  /** Every item comes from a line, and every line's item is there, the shop line included. */
  lemma ReceiptItemsFromLines(lines: seq<string>, item: Item)
    ensures item in ReceiptItems(lines) <==> exists k :: 0 <= k < |lines| && ReceiptLineItem(lines[k]) == Some(item)
  {
    var results := seq(|lines|, k requires 0 <= k < |lines| => ReceiptLineItem(lines[k]));
    PresentMembers(results, item);
    if Some(item) in results {
      var k :| 0 <= k < |results| && results[k] == Some(item);
      assert ReceiptLineItem(lines[k]) == Some(item);
    }
    if exists k :: 0 <= k < |lines| && ReceiptLineItem(lines[k]) == Some(item) {
      var k :| 0 <= k < |lines| && ReceiptLineItem(lines[k]) == Some(item);
      assert results[k] == Some(item);
    }
  }

  /** What `parseReceipt` returns: the shop name, if any, and the items. */
  datatype Receipt = Receipt(shopName: Option<string>, items: seq<Item>)

  function ReceiptOf(text: string): Receipt {
    var lines := NonBlankLines(SplitOn(text, '\n'));
    Receipt(ShopName(lines), ReceiptItems(lines))
  }

  /** `parseReceipt`: the kept lines, the shop name from the first of them, and their items. */
  method ParseReceipt(ocrText: string) returns (r: Receipt)
    ensures r == ReceiptOf(ocrText)
  {
    var lines := NonBlankLines(SplitOn(ocrText, '\n'));
    var items := CollectItems(lines);
    r := Receipt(ShopName(lines), items);
  }

  /** The loop of `parseReceipt`: one pass over the kept lines, pushing each line's item. */
  method CollectItems(lines: seq<string>) returns (items: seq<Item>)
    ensures items == ReceiptItems(lines)
  {
    items := [];
    for k := 0 to |lines|
      invariant items == ReceiptItems(lines[..k])
    {
      var line := lines[k];
      ReceiptItemsAppend(lines[..k], [line]);
      ReceiptItemsOfOneLine(line);
      assert lines[..k + 1] == lines[..k] + [line];
      var m := TrailingPrice(line);
      if m.Some? {
        var rawName := Trim(line[..m.value.start]);
        if rawName != "" {
          items := items + [Item(rawName, 1, m.value.price, m.value.price)];
        }
      }
    }
    assert lines[..|lines|] == lines;
  }

  /**
    * The shop name is absent exactly when every line is blank; otherwise it is the first
    * non-blank line, untrimmed, cut to 60 characters.
    */
  lemma ShopNameOfText(text: string, lines: seq<string>)
    requires lines == SplitOn(text, '\n')
    ensures ReceiptOf(text).shopName.None? <==> forall j :: 0 <= j < |lines| ==> Trim(lines[j]) == ""
    ensures forall k :: 0 <= k < |lines| && Trim(lines[k]) != "" && (forall j :: 0 <= j < k ==> Trim(lines[j]) == "") ==>
              ReceiptOf(text).shopName == Some(lines[k][..if |lines[k]| <= 60 then |lines[k]| else 60])
  {
    AllBlank(lines);
    forall k | 0 <= k < |lines| && Trim(lines[k]) != "" && (forall j :: 0 <= j < k ==> Trim(lines[j]) == "")
      ensures ReceiptOf(text).shopName == Some(lines[k][..if |lines[k]| <= 60 then |lines[k]| else 60])
    {
      FirstNonBlankLine(lines, k);
    }
  }
}
