/**
  * The lines of the parser test suites (functions/lib/__tests__/ocr.test.js and
  * functions/src/__tests__/receiptParser.test.ts), each parsed by the line parsers exactly.
  */
module ParserCases {
  import opened JsText
  import opened LineItems
  import opened OcrParser
  import opened ReceiptParser

  // ----- parseOcrText -----

  lemma BreadParts()
    ensures "Bread 2" == "Bread " + "2" + "" && AllOf("Bread ", NonDigit) && AllOf("2", Digit)
  {
  }

  lemma BreadName()
    ensures Trim("Bread ") == "Bread"
  {
  }

  lemma TwoValue()
    ensures AllOf("2", Digit) && DigitsValue("2") == 2
  {
  }

  /** 'Bread 2': an integer price after the name. */
  lemma OcrBread()
    ensures OcrLineItem("Bread 2") == Some(SingleItem("Bread", 2.0))
  {
    BreadParts();
    BreadName();
    TwoValue();
    IntegerPrice("Bread ", "2", "");
  }

  lemma CheeseParts()
    ensures "Cheese 5" == "Cheese " + "5" + "" && AllOf("Cheese ", NonDigit) && AllOf("5", Digit)
  {
  }

  lemma CheeseName()
    ensures Trim("Cheese ") == "Cheese"
  {
  }

  lemma FiveValue()
    ensures AllOf("5", Digit) && DigitsValue("5") == 5
  {
  }

  /** 'Cheese 5': an integer price after the name. */
  lemma OcrCheese()
    ensures OcrLineItem("Cheese 5") == Some(SingleItem("Cheese", 5.0))
  {
    CheeseParts();
    CheeseName();
    FiveValue();
    IntegerPrice("Cheese ", "5", "");
  }

  lemma ApplesParts()
    ensures "Apples 2.50" == "Apples " + "2" + ['.', '5', '0'] + "" && AllOf("Apples ", NonDigit)
  {
  }

  lemma ApplesName()
    ensures Trim("Apples ") == "Apples"
  {
  }

  lemma ApplesPrice()
    ensures AllOf("2", Digit) && Price("2", '5', '0') == 2.5
  {
    TwoValue();
  }

  /** 'Apples 2.50': a price with two decimals after the name. */
  lemma OcrApples()
    ensures OcrLineItem("Apples 2.50") == Some(SingleItem("Apples", 2.5))
  {
    ApplesParts();
    ApplesName();
    ApplesPrice();
    DecimalPrice("Apples ", "2", '5', '0', "");
  }

  lemma ItemAParts()
    ensures "  Item A   10.00  " == "  Item A   " + "10" + ['.', '0', '0'] + "  " && AllOf("  Item A   ", NonDigit)
  {
  }

  lemma ItemAName()
    ensures Trim("  Item A   ") == "Item A"
  {
    assert Span("  Item A   ", 0, Space) == 2;
    assert "  Item A   "[2..] == "Item A   ";
  }

  lemma ItemAPrice()
    ensures AllOf("10", Digit) && Price("10", '0', '0') == 10.0
  {
    assert DigitsValue("10") == 10;
  }

  /** '  Item A   10.00  ': the name is trimmed at both ends, and the spaces after the price are ignored. */
  lemma OcrItemA()
    ensures OcrLineItem("  Item A   10.00  ") == Some(SingleItem("Item A", 10.0))
  {
    ItemAParts();
    ItemAName();
    ItemAPrice();
    DecimalPrice("  Item A   ", "10", '0', '0', "  ");
  }

  /** '12.99': a price with no name before it yields nothing. */
  lemma OcrNameless()
    ensures OcrLineItem("12.99") == None
  {
    NoNameNoItem("12.99", 0);
  }

  /** A line without digits yields nothing. */
  lemma OcrRandomText()
    ensures OcrLineItem("this is some random text without prices") == None
  {
    NoDigitNoItem("this is some random text without prices");
  }

  /** Empty and blank lines yield nothing. */
  lemma OcrEmptyLine()
    ensures OcrLineItem("") == None
  {
    NoDigitNoItem("");
  }

  lemma BananasParts()
    ensures "Bananas 1.00" == "Bananas " + "1" + ['.', '0', '0'] + "" && AllOf("Bananas ", NonDigit)
  {
  }

  lemma BananasName()
    ensures Trim("Bananas ") == "Bananas"
  {
  }

  lemma BananasPrice()
    ensures AllOf("1", Digit) && Price("1", '0', '0') == 1.0
  {
    assert DigitsValue("1") == 1;
  }

  /** 'Bananas 1.00': a price whose decimals are zero. */
  lemma OcrBananas()
    ensures OcrLineItem("Bananas 1.00") == Some(SingleItem("Bananas", 1.0))
  {
    BananasParts();
    BananasName();
    BananasPrice();
    DecimalPrice("Bananas ", "1", '0', '0', "");
  }

  lemma MilkParts()
    ensures "Milk 3.25" == "Milk " + "3" + ['.', '2', '5'] + "" && AllOf("Milk ", NonDigit)
  {
  }

  lemma MilkName()
    ensures Trim("Milk ") == "Milk"
  {
  }

  lemma MilkPrice()
    ensures AllOf("3", Digit) && Price("3", '2', '5') == 3.25
  {
    assert DigitsValue("3") == 3;
  }

  /** 'Milk 3.25'. */
  lemma OcrMilk()
    ensures OcrLineItem("Milk 3.25") == Some(SingleItem("Milk", 3.25))
  {
    MilkParts();
    MilkName();
    MilkPrice();
    DecimalPrice("Milk ", "3", '2', '5', "");
  }

  lemma ItemBParts()
    ensures "Item B  5.50" == "Item B  " + "5" + ['.', '5', '0'] + "" && AllOf("Item B  ", NonDigit)
  {
  }

  lemma ItemBName()
    ensures Trim("Item B  ") == "Item B"
  {
    assert "Item B  "[0..] == "Item B  ";
    assert "Item B  "[..7] == "Item B " && "Item B "[..6] == "Item B";
  }

  lemma ItemBPrice()
    ensures AllOf("5", Digit) && Price("5", '5', '0') == 5.5
  {
    FiveValue();
  }

  /** 'Item B  5.50'. */
  lemma OcrItemB()
    ensures OcrLineItem("Item B  5.50") == Some(SingleItem("Item B", 5.5))
  {
    ItemBParts();
    ItemBName();
    ItemBPrice();
    DecimalPrice("Item B  ", "5", '5', '0', "");
  }

  /** The result for a text whose lines, split at line feeds, are `lines`. */
  lemma OcrOfJoin(text: string, lines: seq<string>, items: seq<Item>)
    requires |lines| >= 1 && forall k :: 0 <= k < |lines| ==> '\n' !in lines[k]
    requires text == JoinWith(lines, '\n') && OcrItems(lines) == items
    ensures OcrResult(text) == if items == [] then [UnknownItem] else items
  {
    SplitOfJoin(lines, '\n');
  }

  /** A first line with an item puts it before the items of the lines after it. */
  lemma OcrItemsConsItem(line: string, item: Item, rest: seq<string>, items: seq<Item>)
    requires OcrLineItem(line) == Some(item) && OcrItems(rest) == items
    ensures OcrItems([line] + rest) == [item] + items
  {
    OcrItemsAppend([line], rest);
    OcrItemsOfOneLine(line);
  }

  /** A first line without an item adds nothing to the items of the lines after it. */
  lemma OcrItemsConsNone(line: string, rest: seq<string>, items: seq<Item>)
    requires OcrLineItem(line) == None && OcrItems(rest) == items
    ensures OcrItems([line] + rest) == items
  {
    OcrItemsAppend([line], rest);
    OcrItemsOfOneLine(line);
  }

  /** How the displays of up to four elements split after their first element. */
  lemma Displays<T>(a: T, b: T, c: T, d: T)
    ensures [d] == [d] + [] && [c, d] == [c] + [d] && [b, c, d] == [b] + [c, d] && [a, b, c, d] == [a] + [b, c, d]
  {
  }

  /** Three item lines, each ended by a line feed. */
  lemma OcrThreeLines(text: string, a: string, b: string, c: string, ia: Item, ib: Item, ic: Item)
    requires '\n' !in a && '\n' !in b && '\n' !in c && text == JoinWith([a, b, c, ""], '\n')
    requires OcrLineItem(a) == Some(ia) && OcrLineItem(b) == Some(ib) && OcrLineItem(c) == Some(ic)
    ensures OcrResult(text) == [ia, ib, ic]
  {
    OcrEmptyLine();
    Displays(a, b, c, "");
    Displays(ia, ia, ib, ic);
    OcrItemsConsNone("", [], []);
    OcrItemsConsItem(c, ic, [""], []);
    OcrItemsConsItem(b, ib, [c, ""], [ic]);
    OcrItemsConsItem(a, ia, [b, c, ""], [ib, ic]);
    OcrOfJoin(text, [a, b, c, ""], [ia, ib, ic]);
  }

  /** Two item lines, each ended by a line feed. */
  lemma OcrTwoLines(text: string, a: string, b: string, ia: Item, ib: Item)
    requires '\n' !in a && '\n' !in b && text == JoinWith([a, b, ""], '\n')
    requires OcrLineItem(a) == Some(ia) && OcrLineItem(b) == Some(ib)
    ensures OcrResult(text) == [ia, ib]
  {
    OcrEmptyLine();
    Displays(a, a, b, "");
    Displays(ia, ia, ia, ib);
    OcrItemsConsNone("", [], []);
    OcrItemsConsItem(b, ib, [""], []);
    OcrItemsConsItem(a, ia, [b, ""], [ib]);
    OcrOfJoin(text, [a, b, ""], [ia, ib]);
  }

  /** Two item lines with an empty line between them. */
  lemma OcrTwoLinesApart(text: string, a: string, b: string, ia: Item, ib: Item)
    requires '\n' !in a && '\n' !in b && text == JoinWith([a, "", b, ""], '\n')
    requires OcrLineItem(a) == Some(ia) && OcrLineItem(b) == Some(ib)
    ensures OcrResult(text) == [ia, ib]
  {
    OcrEmptyLine();
    Displays(a, "", b, "");
    Displays(ia, ia, ia, ib);
    OcrItemsConsNone("", [], []);
    OcrItemsConsItem(b, ib, [""], []);
    OcrItemsConsNone("", [b, ""], [ib]);
    OcrItemsConsItem(a, ia, ["", b, ""], [ib]);
    OcrOfJoin(text, [a, "", b, ""], [ia, ib]);
  }

  /** One line, with or without a line feed after it, that yields no item. */
  lemma OcrNoItemLine(text: string, a: string)
    requires '\n' !in a && (text == a || text == JoinWith([a, ""], '\n')) && OcrLineItem(a) == None
    ensures OcrResult(text) == [UnknownItem]
  {
    OcrEmptyLine();
    Displays(a, a, a, "");
    assert [a] == [a] + [];
    OcrItemsConsNone("", [], []);
    OcrItemsConsNone(a, [""], []);
    OcrItemsConsNone(a, [], []);
    if text == a {
      OcrOfJoin(text, [a], []);
    } else {
      OcrOfJoin(text, [a, ""], []);
    }
  }

  lemma GroceryText()
    ensures '\n' !in "Apples 2.50" && '\n' !in "Bananas 1.00" && '\n' !in "Milk 3.25"
  {
  }

  /** 'should parse a simple grocery list': the text 'Apples 2.50\nBananas 1.00\nMilk 3.25\n', given by its lines. */
  lemma OcrGroceryList(text: string)
    requires text == JoinWith(["Apples 2.50", "Bananas 1.00", "Milk 3.25", ""], '\n')
    ensures OcrResult(text) == [SingleItem("Apples", 2.5), SingleItem("Bananas", 1.0), SingleItem("Milk", 3.25)]
  {
    OcrApples();
    OcrBananas();
    OcrMilk();
    GroceryText();
    OcrThreeLines(text, "Apples 2.50", "Bananas 1.00", "Milk 3.25",
      SingleItem("Apples", 2.5), SingleItem("Bananas", 1.0), SingleItem("Milk", 3.25));
  }

  lemma IntegerText()
    ensures "Bread 2\nCheese 5\n" == JoinWith(["Bread 2", "Cheese 5", ""], '\n')
    ensures '\n' !in "Bread 2" && '\n' !in "Cheese 5"
  {
  }

  /** 'should handle integer prices'. */
  lemma OcrIntegerPrices(text: string)
    requires text == "Bread 2\nCheese 5\n"
    ensures OcrResult(text) == [SingleItem("Bread", 2.0), SingleItem("Cheese", 5.0)]
  {
    OcrBread();
    OcrCheese();
    IntegerText();
    OcrTwoLines(text, "Bread 2", "Cheese 5", SingleItem("Bread", 2.0), SingleItem("Cheese", 5.0));
  }

  lemma SpacedText()
    ensures '\n' !in "  Item A   10.00  " && '\n' !in "Item B  5.50"
  {
  }

  /** 'should handle empty lines and extra spaces': the text '  Item A   10.00  \n\nItem B  5.50\n', given by its lines. */
  lemma OcrEmptyLinesAndSpaces(text: string)
    requires text == JoinWith(["  Item A   10.00  ", "", "Item B  5.50", ""], '\n')
    ensures OcrResult(text) == [SingleItem("Item A", 10.0), SingleItem("Item B", 5.5)]
  {
    OcrItemA();
    OcrItemB();
    SpacedText();
    OcrTwoLinesApart(text, "  Item A   10.00  ", "Item B  5.50", SingleItem("Item A", 10.0), SingleItem("Item B", 5.5));
  }

  /** 'should return a default item for unparsable text'. */
  lemma OcrUnparsable(text: string)
    requires text == "this is some random text without prices"
    ensures OcrResult(text) == [UnknownItem]
  {
    OcrRandomText();
    assert '\n' !in "this is some random text without prices";
    OcrNoItemLine(text, "this is some random text without prices");
  }

  lemma NamelessText()
    ensures "12.99\n" == JoinWith(["12.99", ""], '\n') && '\n' !in "12.99"
  {
  }

  /** 'should handle items with no name'. */
  lemma OcrNoName(text: string)
    requires text == "12.99\n"
    ensures OcrResult(text) == [UnknownItem]
  {
    OcrNameless();
    NamelessText();
    OcrNoItemLine(text, "12.99");
  }

  // ----- parseReceipt -----

  lemma ApplesKgParts()
    ensures "Apples 1kg 150.00" == "Apples 1kg " + "150" + ['.', '0', '0']
  {
  }

  lemma ApplesKgName()
    ensures Trim("Apples 1kg ") == "Apples 1kg"
  {
  }

  lemma ApplesKgPrice()
    ensures AllOf("150", Digit) && Price("150", '0', '0') == 150.0
  {
    assert "150"[..2] == "15" && "15"[..1] == "1";
    assert DigitsValue("15") == 15;
  }

  /** 'Apples 1kg 150.00': the quantity stays in the name, and the trailing price is the unit price. */
  lemma ReceiptApples()
    ensures ReceiptLineItem("Apples 1kg 150.00") == Some(SingleItem("Apples 1kg", 150.0))
  {
    ApplesKgParts();
    ApplesKgName();
    ApplesKgPrice();
    TrailingPriceItem("Apples 1kg ", "150", '0', '0');
  }

  lemma BreadPriceParts()
    ensures "Bread 45.50" == "Bread " + "45" + ['.', '5', '0']
  {
  }

  lemma BreadPrice()
    ensures AllOf("45", Digit) && Price("45", '5', '0') == 45.5
  {
    assert DigitsValue("45") == 45;
  }

  /** 'Bread 45.50': a trailing price with two decimals. */
  lemma ReceiptBread()
    ensures ReceiptLineItem("Bread 45.50") == Some(SingleItem("Bread", 45.5))
  {
    BreadPriceParts();
    BreadName();
    BreadPrice();
    TrailingPriceItem("Bread ", "45", '5', '0');
  }

  lemma TotalParts()
    ensures "Total: 255.50" == "Total: " + "255" + ['.', '5', '0']
  {
  }

  lemma TotalName()
    ensures Trim("Total: ") == "Total:"
  {
  }

  lemma TotalPrice()
    ensures AllOf("255", Digit) && Price("255", '5', '0') == 255.5
  {
    assert "255"[..2] == "25" && "25"[..1] == "2";
    assert DigitsValue("25") == 25;
  }

  /** 'Total: 255.50': the total line is an item like any other. */
  lemma ReceiptTotal()
    ensures ReceiptLineItem("Total: 255.50") == Some(SingleItem("Total:", 255.5))
  {
    TotalParts();
    TotalName();
    TotalPrice();
    TrailingPriceItem("Total: ", "255", '5', '0');
  }

  /** 'Milk 2L 60': a price without two decimals yields nothing. */
  lemma ReceiptMilk()
    ensures ReceiptLineItem("Milk 2L 60") == None
  {
    assert !EndsWithPrice("Milk 2L 60");
    TrailingPriceShape("Milk 2L 60");
  }

  /** 'Indiranagar, Bangalore': a line without a price yields nothing. */
  lemma ReceiptAddress()
    ensures ReceiptLineItem("Indiranagar, Bangalore") == None
  {
    assert !EndsWithPrice("Indiranagar, Bangalore");
    TrailingPriceShape("Indiranagar, Bangalore");
  }

  /** A line whose first character is not white space is kept. */
  lemma NotBlank(line: string)
    requires line != [] && !IsSpace(line[0])
    ensures Trim(line) != ""
  {
    assert !InClass(line[0], Space);
  }

  /** A kept first line stays in front of the kept lines after it. */
  lemma KeepLine(line: string, rest: seq<string>, kept: seq<string>)
    requires Trim(line) != "" && NonBlankLines(rest) == kept
    ensures NonBlankLines([line] + rest) == [line] + kept
  {
    assert ([line] + rest)[1..] == rest;
  }

  /** A blank first line is dropped. */
  lemma DropLine(line: string, rest: seq<string>, kept: seq<string>)
    requires Trim(line) == "" && NonBlankLines(rest) == kept
    ensures NonBlankLines([line] + rest) == kept
  {
    assert ([line] + rest)[1..] == rest;
  }

  /** A first line with an item puts it before the items of the lines after it. */
  lemma ReceiptItemsConsItem(line: string, item: Item, rest: seq<string>, items: seq<Item>)
    requires ReceiptLineItem(line) == Some(item) && ReceiptItems(rest) == items
    ensures ReceiptItems([line] + rest) == [item] + items
  {
    ReceiptItemsAppend([line], rest);
    ReceiptItemsOfOneLine(line);
  }

  /** A first line without an item adds nothing to the items of the lines after it. */
  lemma ReceiptItemsConsNone(line: string, rest: seq<string>, items: seq<Item>)
    requires ReceiptLineItem(line) == None && ReceiptItems(rest) == items
    ensures ReceiptItems([line] + rest) == items
  {
    ReceiptItemsAppend([line], rest);
    ReceiptItemsOfOneLine(line);
  }

  /** How a display of eight elements splits after each of its first seven. */
  lemma Displays8<T>(a: T, b: T, c: T, d: T, e: T, f: T, g: T, h: T)
    ensures [g, h] == [g] + [h] && [f, g, h] == [f] + [g, h] && [e, f, g, h] == [e] + [f, g, h]
    ensures [d, e, f, g, h] == [d] + [e, f, g, h] && [c, d, e, f, g, h] == [c] + [d, e, f, g, h]
    ensures [b, c, d, e, f, g, h] == [b] + [c, d, e, f, g, h] && [a, b, c, d, e, f, g, h] == [a] + [b, c, d, e, f, g, h]
    ensures [h] == [h] + []
  {
  }

  /** The blank first and last lines of the receipt in the test suite are dropped. */
  lemma KeptOfShape(shop: string, address: string, a: string, m: string, b: string, t: string)
    requires shop != [] && address != [] && a != [] && m != [] && b != [] && t != []
    requires !IsSpace(shop[0]) && !IsSpace(address[0]) && !IsSpace(a[0]) && !IsSpace(m[0]) && !IsSpace(b[0]) && !IsSpace(t[0])
    ensures NonBlankLines(["", shop, address, a, m, b, t, ""]) == [shop, address, a, m, b, t]
  {
    NotBlank(shop);
    NotBlank(address);
    NotBlank(a);
    NotBlank(m);
    NotBlank(b);
    NotBlank(t);
    assert Trim("") == "";
    Displays8("", shop, address, a, m, b, t, "");
    Displays8(shop, shop, shop, address, a, m, b, t);
    DropLine("", [], []);
    KeepLine(t, [""], []);
    KeepLine(b, [t, ""], [t]);
    KeepLine(m, [b, t, ""], [b, t]);
    KeepLine(a, [m, b, t, ""], [m, b, t]);
    KeepLine(address, [a, m, b, t, ""], [a, m, b, t]);
    KeepLine(shop, [address, a, m, b, t, ""], [address, a, m, b, t]);
    DropLine("", [shop, address, a, m, b, t, ""], [shop, address, a, m, b, t]);
  }

  /** The item lines of the receipt in the test suite, in order. */
  lemma ItemsOfShape(shop: string, address: string, a: string, m: string, b: string, t: string, ia: Item, ib: Item, it: Item)
    requires ReceiptLineItem(shop) == None && ReceiptLineItem(address) == None && ReceiptLineItem(m) == None
    requires ReceiptLineItem(a) == Some(ia) && ReceiptLineItem(b) == Some(ib) && ReceiptLineItem(t) == Some(it)
    ensures ReceiptItems([shop, address, a, m, b, t]) == [ia, ib, it]
  {
    Displays8(shop, shop, shop, address, a, m, b, t);
    Displays(ia, ia, ib, it);
    ReceiptItemsConsItem(t, it, [], []);
    ReceiptItemsConsItem(b, ib, [t], [it]);
    ReceiptItemsConsNone(m, [b, t], [ib, it]);
    ReceiptItemsConsItem(a, ia, [m, b, t], [ib, it]);
    ReceiptItemsConsNone(address, [a, m, b, t], [ia, ib, it]);
    ReceiptItemsConsNone(shop, [address, a, m, b, t], [ia, ib, it]);
  }

  /**
    * The shape of the receipt in the test suite: a blank line, the shop name, an address, two item
    * lines around a line without a price with two decimals, the total, and a final line feed.
    */
  lemma ReceiptShape(text: string, shop: string, address: string, a: string, m: string, b: string, t: string,
                     ia: Item, ib: Item, it: Item)
    requires '\n' !in shop && '\n' !in address && '\n' !in a && '\n' !in m && '\n' !in b && '\n' !in t
    requires text == JoinWith(["", shop, address, a, m, b, t, ""], '\n')
    requires shop != [] && address != [] && a != [] && m != [] && b != [] && t != []
    requires !IsSpace(shop[0]) && !IsSpace(address[0]) && !IsSpace(a[0]) && !IsSpace(m[0]) && !IsSpace(b[0]) && !IsSpace(t[0])
    requires ReceiptLineItem(shop) == None && ReceiptLineItem(address) == None && ReceiptLineItem(m) == None
    requires ReceiptLineItem(a) == Some(ia) && ReceiptLineItem(b) == Some(ib) && ReceiptLineItem(t) == Some(it)
    ensures ReceiptOf(text) == Receipt(ShopName([shop, address, a, m, b, t]), [ia, ib, it])
  {
    var lines := ["", shop, address, a, m, b, t, ""];
    assert forall k :: 0 <= k < |lines| ==> '\n' !in lines[k];
    SplitOfJoin(lines, '\n');
    KeptOfShape(shop, address, a, m, b, t);
    ItemsOfShape(shop, address, a, m, b, t, ia, ib, it);
  }

  lemma ReceiptTestNoLineFeeds()
    ensures '\n' !in "BIG BAZAAR" && '\n' !in "Indiranagar, Bangalore" && '\n' !in "Apples 1kg 150.00"
    ensures '\n' !in "Milk 2L 60" && '\n' !in "Bread 45.50" && '\n' !in "Total: 255.50"
  {
  }

  /** 'BIG BAZAAR': a line without a price yields nothing. */
  lemma ReceiptShopLine()
    ensures ReceiptLineItem("BIG BAZAAR") == None
  {
    assert !EndsWithPrice("BIG BAZAAR");
    TrailingPriceShape("BIG BAZAAR");
  }

  lemma ReceiptTestFirstCharacters()
    ensures !IsSpace("BIG BAZAAR"[0]) && !IsSpace("Indiranagar, Bangalore"[0]) && !IsSpace("Apples 1kg 150.00"[0])
    ensures !IsSpace("Milk 2L 60"[0]) && !IsSpace("Bread 45.50"[0]) && !IsSpace("Total: 255.50"[0])
  {
  }

  lemma ReceiptTestLineItems()
    ensures ReceiptLineItem("BIG BAZAAR") == None && ReceiptLineItem("Indiranagar, Bangalore") == None
    ensures ReceiptLineItem("Milk 2L 60") == None
    ensures ReceiptLineItem("Apples 1kg 150.00") == Some(SingleItem("Apples 1kg", 150.0))
    ensures ReceiptLineItem("Bread 45.50") == Some(SingleItem("Bread", 45.5))
    ensures ReceiptLineItem("Total: 255.50") == Some(SingleItem("Total:", 255.5))
  {
    ReceiptShopLine();
    ReceiptAddress();
    ReceiptMilk();
    ReceiptApples();
    ReceiptBread();
    ReceiptTotal();
  }

  lemma ReceiptTestShop()
    ensures ShopName(["BIG BAZAAR", "Indiranagar, Bangalore", "Apples 1kg 150.00", "Milk 2L 60", "Bread 45.50", "Total: 255.50"])
         == Some("BIG BAZAAR")
  {
  }

  /**
    * The receipt of the test suite: the shop name is its first line, and the three lines that end
    * in a price with two decimals, the total line among them, are its items. The text is the
    * template literal of the suite: its lines joined by line feeds, with a line feed first and last.
    */
  lemma ReceiptTestText(text: string)
    requires text == JoinWith(["", "BIG BAZAAR", "Indiranagar, Bangalore", "Apples 1kg 150.00", "Milk 2L 60",
                               "Bread 45.50", "Total: 255.50", ""], '\n')
    ensures ReceiptOf(text).shopName == Some("BIG BAZAAR")
    ensures ReceiptOf(text).items == [SingleItem("Apples 1kg", 150.0), SingleItem("Bread", 45.5), SingleItem("Total:", 255.5)]
  {
    ReceiptTestNoLineFeeds();
    ReceiptTestLineItems();
    ReceiptTestFirstCharacters();
    ReceiptTestShop();
    ReceiptShape(text, "BIG BAZAAR", "Indiranagar, Bangalore", "Apples 1kg 150.00", "Milk 2L 60", "Bread 45.50", "Total: 255.50",
      SingleItem("Apples 1kg", 150.0), SingleItem("Bread", 45.5), SingleItem("Total:", 255.5));
  }
}
