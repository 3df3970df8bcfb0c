/**
  * The item records both receipt-line parsers produce, and the reading of a price from the
  * digits a regular expression matched (`parseFloat` of `d+` or `d+.dd`).
  */
module LineItems {
  import opened JsText

  /** One parsed receipt line: a name, a quantity and the unit and total price. */
  datatype Item = Item(rawName: string, quantity: nat, unitPrice: real, totalPrice: real)

  /** Where a price regular expression matched in a line, and the price it reads. */
  datatype PriceMatch = PriceMatch(start: nat, end: nat, price: real)

  /** A non-empty name with no whitespace at either end, as `trim()` leaves it. */
  predicate ValidName(name: string) {
    name != [] && !IsSpace(name[0]) && !IsSpace(name[|name| - 1])
  }

  /** A line item of one unit at `price`: the only shape either parser produces. */
  function SingleItem(rawName: string, price: real): (item: Item)
    ensures item.quantity == 1 && item.unitPrice == item.totalPrice == price && item.rawName == rawName
  {
    Item(rawName, 1, price, price)
  }

  function DigitValue(c: char): (v: nat)
    requires IsDigit(c)
    ensures v < 10
  {
    c as int - '0' as int
  }

  /** The number a run of decimal digits denotes; leading zeros are ignored. */
  function DigitsValue(ds: string): nat
    requires AllOf(ds, Digit)
  {
    if ds == [] then 0 else 10 * DigitsValue(ds[..|ds| - 1]) + DigitValue(ds[|ds| - 1])
  }

  /** The decimal numeral of `n`, without leading zeros. */
  function Numeral(n: nat): (ds: string)
    ensures AllOf(ds, Digit) && |ds| > 0
    ensures |ds| > 1 ==> ds[0] != '0'
  {
    var last := ['0' + (n % 10) as char];
    if n < 10 then last else Numeral(n / 10) + last
  }

  /** Reading the numeral of `n` gives `n` back. */
  lemma {:induction false} DigitsValueOfNumeral(n: nat)
    ensures DigitsValue(Numeral(n)) == n
  {
    var ds := Numeral(n);
    if n >= 10 {
      DigitsValueOfNumeral(n / 10);
      assert ds[..|ds| - 1] == Numeral(n / 10);
    }
  }

  /** A digit run followed by a point and two more digits: the value in hundredths, exactly. */
  function Price(whole: string, tenths: char, hundredths: char): (p: real)
    requires AllOf(whole, Digit) && IsDigit(tenths) && IsDigit(hundredths)
    ensures 0.0 <= p
    ensures p * 100.0 == (100 * DigitsValue(whole) + 10 * DigitValue(tenths) + DigitValue(hundredths)) as real
  {
    DigitsValue(whole) as real + (10 * DigitValue(tenths) + DigitValue(hundredths)) as real / 100.0
  }

  /** The values present in a sequence of optional results, in order. */
  function Present(results: seq<Option<Item>>): (items: seq<Item>)
    ensures |items| <= |results|
  {
    if results == [] then []
    else
      var last := results[|results| - 1];
      Present(results[..|results| - 1]) + (if last.Some? then [last.value] else [])
  }

  /** Collecting the present values commutes with concatenation. */
  lemma {:induction false} PresentAppend(first: seq<Option<Item>>, second: seq<Option<Item>>)
    ensures Present(first + second) == Present(first) + Present(second)
    decreases |second|
  {
    if second == [] {
      assert first + second == first;
    } else {
      var all := first + second;
      var front := second[..|second| - 1];
      assert all[..|all| - 1] == first + front && all[|all| - 1] == second[|second| - 1];
      PresentAppend(first, front);
    }
  }

  /** Nothing is present exactly when every result is absent. */
  lemma {:induction false} PresentEmpty(results: seq<Option<Item>>)
    ensures Present(results) == [] <==> forall k :: 0 <= k < |results| ==> results[k].None?
  {
    if results != [] {
      PresentEmpty(results[..|results| - 1]);
      assert forall k :: 0 <= k < |results| - 1 ==> results[..|results| - 1][k] == results[k];
    }
  }

  /** The present values are exactly the values of the present results. */
  lemma {:induction false} PresentMembers(results: seq<Option<Item>>, item: Item)
    ensures item in Present(results) <==> Some(item) in results
  {
    if results != [] {
      PresentMembers(results[..|results| - 1], item);
      assert results == results[..|results| - 1] + [results[|results| - 1]];
    }
  }
}
