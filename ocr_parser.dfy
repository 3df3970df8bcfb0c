/**
  * `parseOcrText` of functions/lib/ocr-parser.js: every line whose leftmost number follows some
  * text becomes an item priced at that number; when no line does, the result is a single
  * "unknown item" at price 0.
  */
module OcrParser {
  import opened JsText
  import opened LineItems

  /**
    * The leftmost match of `(\d+\.\d{2})|(\d+)`: it starts at the first digit; the first
    * alternative wins when the digit run is followed by a point and two digits, and then the
    * match stops after those two digits; otherwise the match is the whole digit run.
    */
  function LeftmostPrice(line: string): (m: Option<PriceMatch>)
    ensures m.Some? ==> m.value.start < m.value.end <= |line|
  {
    var p := Span(line, 0, NonDigit);
    if p == |line| then None
    else
      var e := p + Span(line, p, Digit);
      DigitRun(line, p, e);
      if e + 3 <= |line| && line[e] == '.' && IsDigit(line[e + 1]) && IsDigit(line[e + 2]) then
        Some(PriceMatch(p, e + 3, Price(line[p..e], line[e + 1], line[e + 2])))
      else
        Some(PriceMatch(p, e, DigitsValue(line[p..e]) as real))
  }

  lemma DigitRun(line: string, p: nat, e: nat)
    requires p <= e <= |line| && e == p + Span(line, p, Digit)
    ensures AllOf(line[p..e], Digit)
  {
    SpanAll(line, p, Digit);
    forall k | 0 <= k < e - p ensures InClass(line[p..e][k], Digit) {
      assert line[p..e][k] == line[p + k];
    }
  }

  /**
    * There is a match exactly when the line has a digit; it starts at the first digit, and the
    * price it reads is not negative.
    */
  lemma LeftmostPriceAtFirstDigit(line: string)
    ensures LeftmostPrice(line).None? <==> AllOf(line, NonDigit)
    ensures LeftmostPrice(line).Some? ==>
              var m := LeftmostPrice(line).value;
              AllIn(line, 0, m.start, NonDigit) && IsDigit(line[m.start]) && 0.0 <= m.price
  {
    SpanAll(line, 0, NonDigit);
  }

  /** The item one line yields: the trimmed text before the price, when that text is not empty. */
  function OcrLineItem(line: string): Option<Item> {
    match LeftmostPrice(line)
    case None => None
    case Some(m) =>
      var name := Trim(line[..m.start]);
      if name == "" then None else Some(SingleItem(name, m.price))
  }

  /**
    * An item has quantity 1, equal unit and total price that is not negative, and a trimmed,
    * non-empty name without digits.
    */
  lemma OcrLineItemShape(line: string)
    ensures var item := OcrLineItem(line);
            item.Some? ==> item.value.quantity == 1 && item.value.unitPrice == item.value.totalPrice
                           && 0.0 <= item.value.unitPrice && ValidName(item.value.rawName)
                           && forall k :: 0 <= k < |item.value.rawName| ==> !IsDigit(item.value.rawName[k])
  {
    LeftmostPriceAtFirstDigit(line);
    if OcrLineItem(line).Some? {
      var m := LeftmostPrice(line).value;
      assert AllOf(line[..m.start], NonDigit);
      TrimKeeps(line[..m.start], NonDigit);
    }
  }

  /** The items of a sequence of lines, one per line that yields one, in line order. */
  function OcrItems(lines: seq<string>): (items: seq<Item>)
    ensures |items| <= |lines|
  {
    Present(seq(|lines|, k requires 0 <= k < |lines| => OcrLineItem(lines[k])))
  }

  /** The item returned when no line yields one. */
  const UnknownItem := Item("unknown item", 1, 0.0, 0.0)

  /** What `parseOcrText` returns for `text`. */
  function OcrResult(text: string): (items: seq<Item>)
    ensures |items| >= 1
  {
    var items := OcrItems(SplitOn(text, '\n'));
    if items == [] then [UnknownItem] else items
  }

  /** `parseOcrText`: one pass over the lines, then the fallback item. */
  method ParseOcrText(text: string) returns (items: seq<Item>)
    ensures items == OcrResult(text)
  {
    var lines := SplitOn(text, '\n');
    items := [];
    for k := 0 to |lines|
      invariant items == OcrItems(lines[..k])
    {
      var line := lines[k];
      OcrItemsAppend(lines[..k], [line]);
      OcrItemsOfOneLine(line);
      assert lines[..k + 1] == lines[..k] + [line];
      var m := LeftmostPrice(line);
      if m.Some? {
        var name := Trim(line[..m.value.start]);
        if name != "" {
          items := items + [Item(name, 1, m.value.price, m.value.price)];
        }
      }
    }
    assert lines[..|lines|] == lines;
    if |items| == 0 {
      items := items + [UnknownItem];
    }
  }

  /** The items of two blocks of lines are the items of the first block, then those of the second. */
  lemma OcrItemsAppend(first: seq<string>, second: seq<string>)
    ensures OcrItems(first + second) == OcrItems(first) + OcrItems(second)
  {
    var all := first + second;
    var results := seq(|all|, k requires 0 <= k < |all| => OcrLineItem(all[k]));
    var firsts := seq(|first|, k requires 0 <= k < |first| => OcrLineItem(first[k]));
    var seconds := seq(|second|, k requires 0 <= k < |second| => OcrLineItem(second[k]));
    assert results == firsts + seconds;
    PresentAppend(firsts, seconds);
  }

  lemma OcrItemsOfOneLine(line: string)
    ensures OcrItems([line]) == if OcrLineItem(line).Some? then [OcrLineItem(line).value] else []
  {
    var results := seq(1, k requires 0 <= k < 1 => OcrLineItem([line][k]));
    assert results == [OcrLineItem(line)];
    assert results[..0] == [];
  }

  /** No item comes out exactly when no line yields one. */
  lemma OcrItemsEmpty(lines: seq<string>)
    ensures OcrItems(lines) == [] <==> forall k :: 0 <= k < |lines| ==> OcrLineItem(lines[k]).None?
  {
    var results := seq(|lines|, k requires 0 <= k < |lines| => OcrLineItem(lines[k]));
    PresentEmpty(results);
    assert forall k :: 0 <= k < |lines| ==> results[k] == OcrLineItem(lines[k]);
  }

  /**
    * Every item comes from a line and every line's item is there; so each has quantity 1, equal
    * unit and total price, and a trimmed, non-empty, digit-free name.
    */
  lemma OcrItemsFromLines(lines: seq<string>, item: Item)
    ensures item in OcrItems(lines) <==> exists k :: 0 <= k < |lines| && OcrLineItem(lines[k]) == Some(item)
  {
    var results := seq(|lines|, k requires 0 <= k < |lines| => OcrLineItem(lines[k]));
    PresentMembers(results, item);
    if Some(item) in results {
      var k :| 0 <= k < |results| && results[k] == Some(item);
      assert OcrLineItem(lines[k]) == Some(item);
    }
    if exists k :: 0 <= k < |lines| && OcrLineItem(lines[k]) == Some(item) {
      var k :| 0 <= k < |lines| && OcrLineItem(lines[k]) == Some(item);
      assert results[k] == Some(item);
    }
  }

  /**
    * The result is the unknown item alone when no line yields an item, and otherwise the items
    * of the lines in order, without it.
    */
  lemma OcrResultCases(text: string, lines: seq<string>)
    requires lines == SplitOn(text, '\n')
    ensures (forall k :: 0 <= k < |lines| ==> OcrLineItem(lines[k]).None?) ==> OcrResult(text) == [UnknownItem]
    ensures (exists k :: 0 <= k < |lines| && OcrLineItem(lines[k]).Some?) ==> OcrResult(text) == OcrItems(lines)
  {
    OcrItemsEmpty(lines);
  }

  /** A line without digits, a blank line in particular, yields nothing. */
  lemma NoDigitNoItem(line: string)
    requires AllOf(line, NonDigit)
    ensures OcrLineItem(line) == None
  {
  }

  /** A line whose first digit has only whitespace before it, such as "12.99", yields nothing. */
  lemma NoNameNoItem(line: string, p: nat)
    requires p < |line| && IsDigit(line[p]) && AllIn(line, 0, p, Space)
    ensures OcrLineItem(line) == None
  {
    assert AllIn(line, 0, p, NonDigit);
    SpanExact(line, 0, p, NonDigit);
    SpanExact(line[..p], 0, p, Space);
  }

  /**
    * A line made of digit-free text, a digit run and a rest that does not continue the number
    * with a point and two digits yields the trimmed text, priced at the run read as an integer.
    */
  lemma IntegerPrice(name: string, ds: string, rest: string)
    requires AllOf(name, NonDigit) && Trim(name) != ""
    requires AllOf(ds, Digit) && ds != []
    requires rest == [] || !IsDigit(rest[0])
    requires !(|rest| >= 3 && rest[0] == '.' && IsDigit(rest[1]) && IsDigit(rest[2]))
    ensures OcrLineItem(name + ds + rest) == Some(SingleItem(Trim(name), DigitsValue(ds) as real))
  {
    var line := name + ds + rest;
    DigitRunAt(name, ds, rest);
    assert line[..|name|] == name && line[|name|..|name| + |ds|] == ds;
    if |name| + |ds| + 3 <= |line| {
      assert line[|name| + |ds|..|name| + |ds| + 3] == rest[..3];
    }
  }

  /**
    * A line made of digit-free text, a digit run, a point, two digits and any rest yields the
    * trimmed text, priced at the number in hundredths.
    */
  lemma DecimalPrice(name: string, ds: string, tenths: char, hundredths: char, rest: string)
    requires AllOf(name, NonDigit) && Trim(name) != ""
    requires AllOf(ds, Digit) && ds != [] && IsDigit(tenths) && IsDigit(hundredths)
    ensures OcrLineItem(name + ds + ['.', tenths, hundredths] + rest)
              == Some(SingleItem(Trim(name), Price(ds, tenths, hundredths)))
  {
    var tail := ['.', tenths, hundredths] + rest;
    var line := name + ds + tail;
    DigitRunAt(name, ds, tail);
    assert name + ds + ['.', tenths, hundredths] + rest == line;
    assert line[..|name|] == name && line[|name|..|name| + |ds|] == ds;
    assert line[|name| + |ds|] == '.' && line[|name| + |ds| + 1] == tenths && line[|name| + |ds| + 2] == hundredths;
    assert LeftmostPrice(line) == Some(PriceMatch(|name|, |name| + |ds| + 3, Price(ds, tenths, hundredths)));
  }

  /** In `name + ds + rest` the first digit is at `|name|` and its run is `ds`. */
  lemma DigitRunAt(name: string, ds: string, rest: string)
    requires AllOf(name, NonDigit) && AllOf(ds, Digit) && ds != []
    requires rest == [] || !IsDigit(rest[0])
    ensures var line := name + ds + rest;
            Span(line, 0, NonDigit) == |name| && Span(line, |name|, Digit) == |ds|
  {
    var line := name + ds + rest;
    assert AllIn(line, 0, |name|, NonDigit) by {
      forall k | 0 <= k < |name| ensures InClass(line[k], NonDigit) {
        assert line[k] == name[k];
      }
    }
    assert line[|name|] == ds[0];
    SpanExact(line, 0, |name|, NonDigit);
    assert AllIn(line, |name|, |name| + |ds|, Digit) by {
      forall k | |name| <= k < |name| + |ds| ensures InClass(line[k], Digit) {
        assert line[k] == ds[k - |name|];
      }
    }
    if rest != [] {
      assert line[|name| + |ds|] == rest[0];
    }
    SpanExact(line, |name|, |ds|, Digit);
  }
}
