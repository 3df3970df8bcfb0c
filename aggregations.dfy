/**
  * `updateAggregationsForBillItems` of functions/src/aggregations.ts and functions/lib/aggregations.js.
  * Each bill item with a positive unit price is folded, in order, into three projections: the
  * statistics of the item at the shop, its statistics over all shops, and a counter per raw
  * spelling of its name. Each projection is a map from document id to document.
  */
module Aggregations {
  import opened JsText

  /** One item of a bill, after normalisation and categorisation. */
  datatype BillItem = BillItem(rawName: string, normalizedName: string, category: string, unit: string, unitPrice: real)

  /** A statistics document; only the per-shop documents carry a shop id. */
  datatype ItemStats = ItemStats(
    shopId: Option<string>, normalizedName: string, category: string, unit: string,
    occurrences: nat, sumUnitPrice: real, minUnitPrice: real, avgUnitPrice: real)

  /** A raw-name example document. */
  datatype Example = Example(rawName: string, count: nat)

  /** Examples live in a sub-collection per normalised name, under their example id. */
  datatype ExampleKey = ExampleKey(normalizedName: string, exampleId: string)

  /** The three collections `shopItemStats`, `globalItemStats` and `itemRawExamples`. */
  datatype Store = Store(
    shopItemStats: map<string, ItemStats>,
    globalItemStats: map<string, ItemStats>,
    itemRawExamples: map<ExampleKey, Example>)

  /**
    * `createExampleId`: the first ten characters of the hex SHA-1 digest of the normalised name
    * followed by the raw name. The digest function is a parameter.
    */
  function CreateExampleId(sha1Hex: string -> string, normalizedName: string, rawName: string): (id: string)
    ensures id <= sha1Hex(normalizedName + rawName)
    ensures |sha1Hex(normalizedName + rawName)| >= 10 ==> |id| == 10
    ensures |sha1Hex(normalizedName + rawName)| < 10 ==> id == sha1Hex(normalizedName + rawName)
  {
    var digest := sha1Hex(normalizedName + rawName);
    digest[..if |digest| < 10 then |digest| else 10]
  }

  /** The document id of the shop statistics of `normalizedName` at `shopId`. */
  function ShopKey(shopId: string, normalizedName: string): string {
    shopId + "_" + normalizedName
  }

  /** Within one prefix, document ids are as distinct as the names they end in. */
  lemma KeyInjective(prefix: string, a: string, b: string)
    ensures prefix + a == prefix + b <==> a == b
  {
    if prefix + a == prefix + b {
      assert a == (prefix + a)[|prefix|..];
      assert b == (prefix + b)[|prefix|..];
    }
  }

  /** `validItems`: the items whose unit price is positive, in order. */
  function ValidItems(billItems: seq<BillItem>): (valid: seq<BillItem>)
    ensures |valid| <= |billItems|
  {
    if billItems == [] then []
    else
      var last := billItems[|billItems| - 1];
      ValidItems(billItems[..|billItems| - 1]) + (if last.unitPrice > 0.0 then [last] else [])
  }

  predicate Positive(items: seq<BillItem>) {
    forall i :: 0 <= i < |items| ==> items[i].unitPrice > 0.0
  }

  /** Exactly the items with a positive price are kept, and none without one. */
  lemma {:induction false} ValidItemsKeep(billItems: seq<BillItem>, item: BillItem)
    ensures item in ValidItems(billItems) <==> item in billItems && item.unitPrice > 0.0
  {
    if billItems != [] {
      ValidItemsKeep(billItems[..|billItems| - 1], item);
      assert billItems == billItems[..|billItems| - 1] + [billItems[|billItems| - 1]];
    }
  }

  lemma {:induction false} ValidItemsPositive(billItems: seq<BillItem>)
    ensures Positive(ValidItems(billItems))
  {
    if billItems != [] {
      ValidItemsPositive(billItems[..|billItems| - 1]);
    }
  }

  /** `Math.min`. */
  function Least(x: real, y: real): (m: real)
    ensures m <= x && m <= y && (m == x || m == y)
  {
    if x <= y then x else y
  }

  /** The document set on the first sight of a key. */
  function Created(shopId: Option<string>, item: BillItem): ItemStats {
    ItemStats(shopId, item.normalizedName, item.category, item.unit, 1, item.unitPrice, item.unitPrice, item.unitPrice)
  }

  /** The update of an existing document by one more price; the average is recomputed. */
  function Updated(data: ItemStats, unitPrice: real): ItemStats {
    var newOccurrences := data.occurrences + 1;
    var newSum := data.sumUnitPrice + unitPrice;
    data.(occurrences := newOccurrences, sumUnitPrice := newSum,
          minUnitPrice := Least(data.minUnitPrice, unitPrice), avgUnitPrice := newSum / newOccurrences as real)
  }

  /** Create the document at `key` or update it. */
  function Upsert(stats: map<string, ItemStats>, key: string, shopId: Option<string>, item: BillItem): map<string, ItemStats> {
    if key in stats then stats[key := Updated(stats[key], item.unitPrice)] else stats[key := Created(shopId, item)]
  }

  /** Upsert every item in order, each under `prefix` followed by its normalised name. */
  function UpsertAll(stats: map<string, ItemStats>, prefix: string, shopId: Option<string>, items: seq<BillItem>): map<string, ItemStats> {
    if items == [] then stats
    else
      var item := items[|items| - 1];
      Upsert(UpsertAll(stats, prefix, shopId, items[..|items| - 1]), prefix + item.normalizedName, shopId, item)
  }

  /** The example key of an item. */
  function ExampleKeyOf(item: BillItem, sha1Hex: string -> string): ExampleKey {
    ExampleKey(item.normalizedName, CreateExampleId(sha1Hex, item.normalizedName, item.rawName))
  }

  /** Create the example with count 1, or count one more sighting and keep its raw name. */
  function Seen(examples: map<ExampleKey, Example>, key: ExampleKey, rawName: string): map<ExampleKey, Example> {
    if key in examples then examples[key := examples[key].(count := examples[key].count + 1)]
    else examples[key := Example(rawName, 1)]
  }

  function SeenAll(examples: map<ExampleKey, Example>, items: seq<BillItem>, sha1Hex: string -> string): map<ExampleKey, Example> {
    if items == [] then examples
    else
      var item := items[|items| - 1];
      Seen(SeenAll(examples, items[..|items| - 1], sha1Hex), ExampleKeyOf(item, sha1Hex), item.rawName)
  }

  /**
    * The store after folding `items` in: each item updates its shop document, its global
    * document and its example, seeing what the earlier items left.
    */
  function Aggregate(store: Store, shopId: string, items: seq<BillItem>, sha1Hex: string -> string): Store {
    Store(UpsertAll(store.shopItemStats, shopId + "_", Some(shopId), items),
          UpsertAll(store.globalItemStats, "", None, items),
          SeenAll(store.itemRawExamples, items, sha1Hex))
  }

  // Totals over the items of one name.

  function Count(items: seq<BillItem>, name: string): (n: nat)
    ensures n <= |items|
  {
    if items == [] then 0
    else Count(items[..|items| - 1], name) + (if items[|items| - 1].normalizedName == name then 1 else 0)
  }

  function Total(items: seq<BillItem>, name: string): real {
    if items == [] then 0.0
    else Total(items[..|items| - 1], name) + (if items[|items| - 1].normalizedName == name then items[|items| - 1].unitPrice else 0.0)
  }

  function LowestPrice(items: seq<BillItem>, name: string): real
    requires Count(items, name) > 0
  {
    var front := items[..|items| - 1];
    var last := items[|items| - 1];
    if last.normalizedName != name then LowestPrice(front, name)
    else if Count(front, name) == 0 then last.unitPrice
    else Least(LowestPrice(front, name), last.unitPrice)
  }

  /** No item has the name exactly when the count is zero. */
  lemma {:induction false} CountZero(items: seq<BillItem>, name: string)
    ensures Count(items, name) == 0 <==> forall i :: 0 <= i < |items| ==> items[i].normalizedName != name
  {
    if items != [] {
      CountZero(items[..|items| - 1], name);
      assert forall i :: 0 <= i < |items| - 1 ==> items[..|items| - 1][i] == items[i];
    }
  }

  /** The lowest price is at most every price of the name, and is one of them. */
  lemma {:induction false} LowestPriceIsLowest(items: seq<BillItem>, name: string)
    requires Count(items, name) > 0
    ensures forall i :: 0 <= i < |items| && items[i].normalizedName == name ==> LowestPrice(items, name) <= items[i].unitPrice
    ensures exists i :: 0 <= i < |items| && items[i].normalizedName == name && LowestPrice(items, name) == items[i].unitPrice
  {
    var front := items[..|items| - 1];
    var last := |items| - 1;
    assert forall i :: 0 <= i < last ==> front[i] == items[i];
    if Count(front, name) == 0 {
      CountZero(front, name);
    } else {
      LowestPriceIsLowest(front, name);
      var j :| 0 <= j < |front| && front[j].normalizedName == name && LowestPrice(front, name) == front[j].unitPrice;
      assert items[j] == front[j];
    }
  }

  // The statistics documents.

  function OccurrencesAt(stats: map<string, ItemStats>, key: string): nat {
    if key in stats then stats[key].occurrences else 0
  }

  function SumAt(stats: map<string, ItemStats>, key: string): real {
    if key in stats then stats[key].sumUnitPrice else 0.0
  }

  /**
    * After folding in items of which `Count(items, name)` carry the name, its document exists and
    * has that many more occurrences and the sum of their prices added.
    */
  lemma {:induction false} UpsertAllCounts(stats: map<string, ItemStats>, prefix: string, shopId: Option<string>, items: seq<BillItem>, name: string)
    requires Count(items, name) > 0
    ensures var after := UpsertAll(stats, prefix, shopId, items);
            prefix + name in after
            && after[prefix + name].occurrences == OccurrencesAt(stats, prefix + name) + Count(items, name)
            && after[prefix + name].sumUnitPrice == SumAt(stats, prefix + name) + Total(items, name)
  {
    var front := items[..|items| - 1];
    var item := items[|items| - 1];
    KeyInjective(prefix, item.normalizedName, name);
    if item.normalizedName != name {
      UpsertAllCounts(stats, prefix, shopId, front, name);
    } else if Count(front, name) == 0 {
      Unnamed(prefix, front, name);
      UpsertAllFrame(stats, prefix, shopId, front, prefix + name);
      TotalZero(front, name);
    } else {
      UpsertAllCounts(stats, prefix, shopId, front, name);
    }
  }

  /** The new minimum is the lowest of the old minimum, if any, and the prices of the name. */
  lemma {:induction false} UpsertAllMinimum(stats: map<string, ItemStats>, prefix: string, shopId: Option<string>, items: seq<BillItem>, name: string)
    requires Count(items, name) > 0
    ensures var after := UpsertAll(stats, prefix, shopId, items);
            prefix + name in after
            && after[prefix + name].minUnitPrice
                 == if prefix + name in stats then Least(stats[prefix + name].minUnitPrice, LowestPrice(items, name))
                    else LowestPrice(items, name)
  {
    var front := items[..|items| - 1];
    var item := items[|items| - 1];
    KeyInjective(prefix, item.normalizedName, name);
    if item.normalizedName != name {
      UpsertAllMinimum(stats, prefix, shopId, front, name);
    } else if Count(front, name) == 0 {
      Unnamed(prefix, front, name);
      UpsertAllFrame(stats, prefix, shopId, front, prefix + name);
    } else {
      UpsertAllMinimum(stats, prefix, shopId, front, name);
    }
  }

  /**
    * An existing document keeps its shop id, name, category and unit; a new one takes the shop
    * id and the name given. Either way the average times the occurrences is the sum.
    */
  lemma {:induction false} UpsertAllKeeps(stats: map<string, ItemStats>, prefix: string, shopId: Option<string>, items: seq<BillItem>, name: string)
    requires Count(items, name) > 0
    ensures var after := UpsertAll(stats, prefix, shopId, items);
            var key := prefix + name;
            key in after
            && after[key].avgUnitPrice * after[key].occurrences as real == after[key].sumUnitPrice
            && (key in stats ==> after[key].(occurrences := 0, sumUnitPrice := 0.0, minUnitPrice := 0.0, avgUnitPrice := 0.0)
                                 == stats[key].(occurrences := 0, sumUnitPrice := 0.0, minUnitPrice := 0.0, avgUnitPrice := 0.0))
            && (key !in stats ==> after[key].shopId == shopId && after[key].normalizedName == name)
  {
    var front := items[..|items| - 1];
    var item := items[|items| - 1];
    KeyInjective(prefix, item.normalizedName, name);
    if item.normalizedName != name {
      UpsertAllKeeps(stats, prefix, shopId, front, name);
    } else if Count(front, name) == 0 {
      Unnamed(prefix, front, name);
      UpsertAllFrame(stats, prefix, shopId, front, prefix + name);
      if prefix + name in stats {
        UpdatedAverage(stats[prefix + name], item.unitPrice);
      }
    } else {
      UpsertAllKeeps(stats, prefix, shopId, front, name);
      UpdatedAverage(UpsertAll(stats, prefix, shopId, front)[prefix + name], item.unitPrice);
    }
  }

  /** The recomputed average times the new occurrences is the new sum. */
  lemma UpdatedAverage(data: ItemStats, unitPrice: real)
    ensures var u := Updated(data, unitPrice);
            u.avgUnitPrice * u.occurrences as real == u.sumUnitPrice
  {
    var n := (data.occurrences + 1) as real;
    var s := data.sumUnitPrice + unitPrice;
    assert (s / n) * n == s;
  }

  /** When no item carries the name, none names its document. */
  lemma Unnamed(prefix: string, items: seq<BillItem>, name: string)
    requires Count(items, name) == 0
    ensures forall i :: 0 <= i < |items| ==> prefix + items[i].normalizedName != prefix + name
  {
    CountZero(items, name);
    forall i | 0 <= i < |items| ensures prefix + items[i].normalizedName != prefix + name {
      KeyInjective(prefix, items[i].normalizedName, name);
    }
  }

  /** A document whose key none of the items names is left as it was, absent or present. */
  lemma {:induction false} UpsertAllFrame(stats: map<string, ItemStats>, prefix: string, shopId: Option<string>, items: seq<BillItem>, key: string)
    requires forall i :: 0 <= i < |items| ==> prefix + items[i].normalizedName != key
    ensures var after := UpsertAll(stats, prefix, shopId, items);
            (key in after <==> key in stats) && (key in stats ==> after[key] == stats[key])
  {
    if items != [] {
      var front := items[..|items| - 1];
      assert forall i :: 0 <= i < |front| ==> front[i] == items[i];
      UpsertAllFrame(stats, prefix, shopId, front, key);
    }
  }

  /** The invariant of a statistics document. */
  predicate StatsValid(s: ItemStats) {
    s.occurrences >= 1
    && s.avgUnitPrice * s.occurrences as real == s.sumUnitPrice
    && 0.0 < s.minUnitPrice
    && s.minUnitPrice * s.occurrences as real <= s.sumUnitPrice
  }

  predicate AllValid(stats: map<string, ItemStats>) {
    forall key :: key in stats ==> StatsValid(stats[key])
  }

  /** Creating with a positive price, or updating with one, keeps the invariant. */
  lemma UpsertValid(stats: map<string, ItemStats>, key: string, shopId: Option<string>, item: BillItem)
    requires AllValid(stats) && item.unitPrice > 0.0
    ensures AllValid(Upsert(stats, key, shopId, item))
  {
    if key in stats {
      var data := stats[key];
      var p := item.unitPrice;
      var n := data.occurrences as real;
      var m := Least(data.minUnitPrice, p);
      UpdatedAverage(data, p);
      assert m * n <= data.minUnitPrice * n by {
        MultiplyMonotone(m, data.minUnitPrice, n);
      }
      assert m * (n + 1.0) == m * n + m;
    }
  }

  lemma MultiplyMonotone(x: real, y: real, n: real)
    requires x <= y && 0.0 <= n
    ensures x * n <= y * n
  {
  }

  lemma {:induction false} UpsertAllValid(stats: map<string, ItemStats>, prefix: string, shopId: Option<string>, items: seq<BillItem>)
    requires AllValid(stats) && Positive(items)
    ensures AllValid(UpsertAll(stats, prefix, shopId, items))
  {
    if items != [] {
      var front := items[..|items| - 1];
      assert Positive(front) by {
        assert forall i :: 0 <= i < |front| ==> front[i] == items[i];
      }
      UpsertAllValid(stats, prefix, shopId, front);
      UpsertValid(UpsertAll(stats, prefix, shopId, front), prefix + items[|items| - 1].normalizedName, shopId, items[|items| - 1]);
    }
  }

  /**
    * Two documents mirror each other when both are absent or they differ only in the shop id,
    * which the second has as `shopId`.
    */
  predicate Mirrors(a: map<string, ItemStats>, keyA: string, b: map<string, ItemStats>, keyB: string, shopId: Option<string>) {
    (keyA in a <==> keyB in b) && (keyA in a ==> b[keyB] == a[keyA].(shopId := shopId))
  }

  /** Two folds over the same items keep the documents of one name mirrored. */
  lemma {:induction false} UpsertAllMirrors(
    a: map<string, ItemStats>, prefixA: string, shopIdA: Option<string>,
    b: map<string, ItemStats>, prefixB: string, shopIdB: Option<string>,
    items: seq<BillItem>, name: string)
    requires Mirrors(a, prefixA + name, b, prefixB + name, shopIdB)
    ensures Mirrors(UpsertAll(a, prefixA, shopIdA, items), prefixA + name, UpsertAll(b, prefixB, shopIdB, items), prefixB + name, shopIdB)
  {
    if items != [] {
      var item := items[|items| - 1];
      UpsertAllMirrors(a, prefixA, shopIdA, b, prefixB, shopIdB, items[..|items| - 1], name);
      KeyInjective(prefixA, item.normalizedName, name);
      KeyInjective(prefixB, item.normalizedName, name);
    }
  }

  // The examples.

  /** The number of items whose example key is `key`. */
  function Sightings(items: seq<BillItem>, key: ExampleKey, sha1Hex: string -> string): (n: nat)
    ensures n <= |items|
  {
    if items == [] then 0
    else Sightings(items[..|items| - 1], key, sha1Hex) + (if ExampleKeyOf(items[|items| - 1], sha1Hex) == key then 1 else 0)
  }

  /**
    * An example is counted once per item naming it; an existing example keeps its raw name and a
    * new one takes the raw name of an item naming it. Every other example is left as it was.
    */
  lemma {:induction false} SeenAllDelta(examples: map<ExampleKey, Example>, items: seq<BillItem>, sha1Hex: string -> string, key: ExampleKey)
    ensures var after := SeenAll(examples, items, sha1Hex);
            (key in after <==> key in examples || Sightings(items, key, sha1Hex) > 0)
            && (key in after ==> after[key].count == (if key in examples then examples[key].count else 0) + Sightings(items, key, sha1Hex))
            && (key in examples ==> after[key].rawName == examples[key].rawName)
            && (key in after && key !in examples ==>
                  exists i :: 0 <= i < |items| && ExampleKeyOf(items[i], sha1Hex) == key && after[key].rawName == items[i].rawName)
  {
    if items != [] {
      var front := items[..|items| - 1];
      SeenAllDelta(examples, front, sha1Hex, key);
      var before := SeenAll(examples, front, sha1Hex);
      if key in before && key !in examples {
        var i :| 0 <= i < |front| && ExampleKeyOf(front[i], sha1Hex) == key && before[key].rawName == front[i].rawName;
        assert items[i] == front[i];
      }
    }
  }

  /** The example counts stay positive. */
  predicate ExamplesValid(examples: map<ExampleKey, Example>) {
    forall key :: key in examples ==> examples[key].count >= 1
  }

  lemma {:induction false} SeenAllValid(examples: map<ExampleKey, Example>, items: seq<BillItem>, sha1Hex: string -> string)
    requires ExamplesValid(examples)
    ensures ExamplesValid(SeenAll(examples, items, sha1Hex))
  {
    if items != [] {
      SeenAllValid(examples, items[..|items| - 1], sha1Hex);
    }
  }

  // The whole store.

  ghost predicate StoreValid(store: Store) {
    AllValid(store.shopItemStats) && AllValid(store.globalItemStats) && ExamplesValid(store.itemRawExamples)
  }

  /** Folding in items with positive prices keeps every document's invariant. */
  lemma AggregateValid(store: Store, shopId: string, items: seq<BillItem>, sha1Hex: string -> string)
    requires StoreValid(store) && Positive(items)
    ensures StoreValid(Aggregate(store, shopId, items, sha1Hex))
  {
    UpsertAllValid(store.shopItemStats, shopId + "_", Some(shopId), items);
    UpsertAllValid(store.globalItemStats, "", None, items);
    SeenAllValid(store.itemRawExamples, items, sha1Hex);
  }

  /** A batch without a positive price changes nothing. */
  lemma NoValidItemsNoChange(store: Store, shopId: string, billItems: seq<BillItem>, sha1Hex: string -> string)
    requires forall i :: 0 <= i < |billItems| ==> billItems[i].unitPrice <= 0.0
    ensures Aggregate(store, shopId, ValidItems(billItems), sha1Hex) == store
  {
    if ValidItems(billItems) != [] {
      var item := ValidItems(billItems)[0];
      ValidItemsKeep(billItems, item);
    }
  }

  /**
    * One call adds to the global document of a name exactly what it adds to the shop's document
    * of that name: as many occurrences as items of the name, and the sum of their prices.
    */
  lemma GlobalGrowsWithShop(store: Store, shopId: string, items: seq<BillItem>, sha1Hex: string -> string, name: string)
    ensures var after := Aggregate(store, shopId, items, sha1Hex);
            var shopKey := ShopKey(shopId, name);
            OccurrencesAt(after.globalItemStats, name) - OccurrencesAt(store.globalItemStats, name)
              == OccurrencesAt(after.shopItemStats, shopKey) - OccurrencesAt(store.shopItemStats, shopKey)
              == Count(items, name)
            && SumAt(after.globalItemStats, name) - SumAt(store.globalItemStats, name)
              == SumAt(after.shopItemStats, shopKey) - SumAt(store.shopItemStats, shopKey)
              == Total(items, name)
  {
    assert "" + name == name;
    if Count(items, name) > 0 {
      UpsertAllCounts(store.shopItemStats, shopId + "_", Some(shopId), items, name);
      UpsertAllCounts(store.globalItemStats, "", None, items, name);
    } else {
      CountZero(items, name);
      TotalZero(items, name);
      forall i | 0 <= i < |items| ensures shopId + "_" + items[i].normalizedName != ShopKey(shopId, name) {
        KeyInjective(shopId + "_", items[i].normalizedName, name);
      }
      forall i | 0 <= i < |items| ensures "" + items[i].normalizedName != name {
        assert "" + items[i].normalizedName == items[i].normalizedName;
      }
      UpsertAllFrame(store.shopItemStats, shopId + "_", Some(shopId), items, ShopKey(shopId, name));
      UpsertAllFrame(store.globalItemStats, "", None, items, name);
    }
  }

  lemma {:induction false} TotalZero(items: seq<BillItem>, name: string)
    requires Count(items, name) == 0
    ensures Total(items, name) == 0.0
  {
    if items != [] {
      TotalZero(items[..|items| - 1], name);
    }
  }

  /**
    * From a store holding neither document of a name, the global document after one call is
    * the shop's document without the shop id: same occurrences, sum, minimum and average.
    */
  lemma FreshGlobalMirrorsShop(store: Store, shopId: string, items: seq<BillItem>, sha1Hex: string -> string, name: string)
    requires ShopKey(shopId, name) !in store.shopItemStats && name !in store.globalItemStats
    ensures var after := Aggregate(store, shopId, items, sha1Hex);
            Mirrors(after.shopItemStats, ShopKey(shopId, name), after.globalItemStats, name, None)
  {
    assert "" + name == name;
    UpsertAllMirrors(store.shopItemStats, shopId + "_", Some(shopId), store.globalItemStats, "", None, items, name);
  }

  /** Folding in one more item is one upsert of each projection. */
  lemma AggregateStep(store: Store, shopId: string, items: seq<BillItem>, k: nat, sha1Hex: string -> string)
    requires k < |items|
    ensures var before := Aggregate(store, shopId, items[..k], sha1Hex);
            var item := items[k];
            Aggregate(store, shopId, items[..k + 1], sha1Hex)
              == Store(Upsert(before.shopItemStats, ShopKey(shopId, item.normalizedName), Some(shopId), item),
                       Upsert(before.globalItemStats, item.normalizedName, None, item),
                       Seen(before.itemRawExamples, ExampleKeyOf(item, sha1Hex), item.rawName))
  {
    assert items[..k + 1][..k] == items[..k];
    assert "" + items[k].normalizedName == items[k].normalizedName;
  }

  // Many calls: the global documents as the sum of the shop documents.

  /** `Math.min` over the prices present, if any. */
  function Lower(a: Option<real>, b: Option<real>): (m: Option<real>)
    ensures m.None? <==> a.None? && b.None?
    ensures m.Some? ==> (a.Some? ==> m.value <= a.value) && (b.Some? ==> m.value <= b.value)
    ensures m.Some? ==> m == a || m == b
  {
    if a.None? then b else if b.None? then a else Some(Least(a.value, b.value))
  }

  /** What the documents of one name hold between them: occurrences, price sum and minimum. */
  datatype Totals = Totals(occurrences: nat, sum: real, minimum: Option<real>)

  const NoTotals := Totals(0, 0.0, None)

  function Plus(a: Totals, b: Totals): Totals {
    Totals(a.occurrences + b.occurrences, a.sum + b.sum, Lower(a.minimum, b.minimum))
  }

  lemma PlusLaws(a: Totals, b: Totals, c: Totals)
    ensures Plus(a, b) == Plus(b, a)
    ensures Plus(Plus(a, b), c) == Plus(a, Plus(b, c))
    ensures Plus(a, NoTotals) == a && Plus(NoTotals, a) == a
  {
  }

  /** The totals of the document at `key`, nothing if it is absent. */
  function TotalsAt(stats: map<string, ItemStats>, key: string): Totals {
    if key in stats then Totals(stats[key].occurrences, stats[key].sumUnitPrice, Some(stats[key].minUnitPrice)) else NoTotals
  }

  /** The totals of the items of one name in a batch. */
  function BatchTotals(items: seq<BillItem>, name: string): Totals {
    Totals(Count(items, name), Total(items, name), if Count(items, name) > 0 then Some(LowestPrice(items, name)) else None)
  }

  /** Folding a batch in adds its totals for `name` to the document of `name`. */
  lemma DocumentGrows(stats: map<string, ItemStats>, prefix: string, shopId: Option<string>, items: seq<BillItem>, name: string)
    ensures TotalsAt(UpsertAll(stats, prefix, shopId, items), prefix + name) == Plus(TotalsAt(stats, prefix + name), BatchTotals(items, name))
  {
    if Count(items, name) > 0 {
      UpsertAllCounts(stats, prefix, shopId, items, name);
      UpsertAllMinimum(stats, prefix, shopId, items, name);
    } else {
      Unnamed(prefix, items, name);
      UpsertAllFrame(stats, prefix, shopId, items, prefix + name);
      TotalZero(items, name);
    }
  }

  /** A shop id without an underscore ends where its documents' names begin. */
  lemma ShopKeysApart(s: string, t: string, a: string, b: string)
    requires '_' !in s && '_' !in t && s != t
    ensures ShopKey(s, a) != ShopKey(t, b)
  {
    var x, y := ShopKey(s, a), ShopKey(t, b);
    if |s| < |t| {
      assert x[|s|] == '_' && y[|s|] == t[|s|] && t[|s|] in t;
    } else if |t| < |s| {
      assert y[|t|] == '_' && x[|t|] == s[|t|] && s[|t|] in s;
    } else {
      var j :| 0 <= j < |s| && s[j] != t[j];
      assert x[j] == s[j] && y[j] == t[j];
    }
  }

  /** The documents of the other shops are left as they were by a call for shop `s`. */
  lemma OtherShopUnchanged(stats: map<string, ItemStats>, s: string, items: seq<BillItem>, t: string, name: string)
    requires '_' !in s && '_' !in t && s != t
    ensures var after := UpsertAll(stats, s + "_", Some(s), items);
            TotalsAt(after, ShopKey(t, name)) == TotalsAt(stats, ShopKey(t, name))
            && (ShopKey(t, name) in after <==> ShopKey(t, name) in stats)
  {
    forall i | 0 <= i < |items| ensures s + "_" + items[i].normalizedName != ShopKey(t, name) {
      ShopKeysApart(s, t, items[i].normalizedName, name);
    }
    UpsertAllFrame(stats, s + "_", Some(s), items, ShopKey(t, name));
  }

  /** With an underscore in a shop id, two shops can share a document id. */
  lemma ShopKeysCollide()
    ensures ShopKey("a", "b_c") == ShopKey("a_b", "c")
  {
  }

  /** A call of the operation: a shop and its bill items. */
  datatype Call = Call(shopId: string, billItems: seq<BillItem>)

  /** The store after the calls, in order. */
  function Replay(store: Store, calls: seq<Call>, sha1Hex: string -> string): Store {
    if calls == [] then store
    else
      var call := calls[|calls| - 1];
      Aggregate(Replay(store, calls[..|calls| - 1], sha1Hex), call.shopId, ValidItems(call.billItems), sha1Hex)
  }

  /** The shops of the calls, each once, in the order of their first call. */
  function ShopsOf(calls: seq<Call>): (shops: seq<string>)
    ensures forall t :: t in shops <==> exists i :: 0 <= i < |calls| && calls[i].shopId == t
  {
    if calls == [] then []
    else
      var front := ShopsOf(calls[..|calls| - 1]);
      assert forall i :: 0 <= i < |calls| - 1 ==> calls[..|calls| - 1][i] == calls[i];
      var s := calls[|calls| - 1].shopId;
      if s in front then front else front + [s]
  }

  predicate Distinct(shops: seq<string>) {
    forall i, j :: 0 <= i < j < |shops| ==> shops[i] != shops[j]
  }

  lemma {:induction false} ShopsOfDistinct(calls: seq<Call>)
    ensures Distinct(ShopsOf(calls))
  {
    if calls != [] {
      ShopsOfDistinct(calls[..|calls| - 1]);
    }
  }

  /** The totals of the shop documents of `name`, over `shops`. */
  function ShopTotals(stats: map<string, ItemStats>, shops: seq<string>, name: string): Totals {
    if shops == [] then NoTotals
    else Plus(ShopTotals(stats, shops[..|shops| - 1], name), TotalsAt(stats, ShopKey(shops[|shops| - 1], name)))
  }

  /** There is a minimum over the shops exactly when one of them has a document of the name. */
  lemma {:induction false} ShopTotalsHasMinimum(stats: map<string, ItemStats>, shops: seq<string>, name: string)
    ensures ShopTotals(stats, shops, name).minimum.None? <==> forall i :: 0 <= i < |shops| ==> ShopKey(shops[i], name) !in stats
  {
    if shops != [] {
      var front := shops[..|shops| - 1];
      ShopTotalsHasMinimum(stats, front, name);
      assert forall i :: 0 <= i < |front| ==> front[i] == shops[i];
    }
  }

  /** The minimum over the shops is at most the minimum of every shop document of the name. */
  lemma {:induction false} ShopTotalsMinimumLeast(stats: map<string, ItemStats>, shops: seq<string>, name: string, i: nat)
    requires i < |shops| && ShopKey(shops[i], name) in stats
    ensures ShopTotals(stats, shops, name).minimum.Some?
    ensures ShopTotals(stats, shops, name).minimum.value <= stats[ShopKey(shops[i], name)].minUnitPrice
  {
    var front := shops[..|shops| - 1];
    if i < |front| {
      assert front[i] == shops[i];
      ShopTotalsMinimumLeast(stats, front, name, i);
    }
  }

  /** The minimum over the shops is the minimum of one of their documents. */
  lemma {:induction false} ShopTotalsMinimumAttained(stats: map<string, ItemStats>, shops: seq<string>, name: string)
    requires ShopTotals(stats, shops, name).minimum.Some?
    ensures exists i :: 0 <= i < |shops| && ShopKey(shops[i], name) in stats
                        && ShopTotals(stats, shops, name).minimum.value == stats[ShopKey(shops[i], name)].minUnitPrice
  {
    var front := shops[..|shops| - 1];
    var last := |shops| - 1;
    var mf := ShopTotals(stats, front, name).minimum;
    if ShopTotals(stats, shops, name).minimum != mf {
      assert ShopKey(shops[last], name) in stats;
    } else {
      ShopTotalsMinimumAttained(stats, front, name);
      var i :| 0 <= i < |front| && ShopKey(front[i], name) in stats && mf.value == stats[ShopKey(front[i], name)].minUnitPrice;
      assert shops[i] == front[i];
    }
  }

  /** Shop totals over shops whose documents did not change do not change. */
  lemma {:induction false} ShopTotalsSame(before: map<string, ItemStats>, after: map<string, ItemStats>, shops: seq<string>, name: string)
    requires forall i :: 0 <= i < |shops| ==> TotalsAt(after, ShopKey(shops[i], name)) == TotalsAt(before, ShopKey(shops[i], name))
    ensures ShopTotals(after, shops, name) == ShopTotals(before, shops, name)
  {
    if shops != [] {
      var front := shops[..|shops| - 1];
      assert forall i :: 0 <= i < |front| ==> front[i] == shops[i];
      ShopTotalsSame(before, after, front, name);
    }
  }

  /** When only the document of shop `s` grew by `d`, the shop totals grew by `d`. */
  lemma {:induction false} ShopTotalsBump(before: map<string, ItemStats>, after: map<string, ItemStats>, shops: seq<string>, s: string, name: string, d: Totals)
    requires Distinct(shops) && s in shops
    requires forall i :: 0 <= i < |shops| && shops[i] != s ==> TotalsAt(after, ShopKey(shops[i], name)) == TotalsAt(before, ShopKey(shops[i], name))
    requires TotalsAt(after, ShopKey(s, name)) == Plus(TotalsAt(before, ShopKey(s, name)), d)
    ensures ShopTotals(after, shops, name) == Plus(ShopTotals(before, shops, name), d)
    decreases |shops|
  {
    var front := shops[..|shops| - 1];
    var last := shops[|shops| - 1];
    assert forall i :: 0 <= i < |front| ==> front[i] == shops[i];
    if last == s {
      assert s !in front by {
        forall i | 0 <= i < |front| ensures front[i] != s {
          assert shops[i] != shops[|shops| - 1];
        }
      }
      ShopTotalsSame(before, after, front, name);
      BumpLast(ShopTotals(before, front, name), TotalsAt(before, ShopKey(last, name)), d);
    } else {
      assert s in front by {
        var j :| 0 <= j < |shops| && shops[j] == s;
        assert j < |front| && front[j] == s;
      }
      ShopTotalsBump(before, after, front, s, name, d);
      BumpEarlier(ShopTotals(before, front, name), TotalsAt(before, ShopKey(last, name)), d);
    }
  }

  lemma BumpLast(f: Totals, x: Totals, d: Totals)
    ensures Plus(f, Plus(x, d)) == Plus(Plus(f, x), d)
  {
    PlusLaws(f, x, d);
  }

  lemma BumpEarlier(f: Totals, x: Totals, d: Totals)
    ensures Plus(Plus(f, d), x) == Plus(Plus(f, x), d)
  {
    PlusLaws(f, d, x);
    PlusLaws(d, x, NoTotals);
    PlusLaws(f, x, d);
  }

  /**
    * The global document of `name` holds what the shop documents of `name` over `shops` hold
    * between them, and no other shop has a document of `name`.
    */
  ghost predicate SumOfShops(global: map<string, ItemStats>, shop: map<string, ItemStats>, shops: seq<string>, name: string) {
    Distinct(shops)
    && (forall i :: 0 <= i < |shops| ==> '_' !in shops[i])
    && TotalsAt(global, name) == ShopTotals(shop, shops, name)
    && forall t {:trigger ShopKey(t, name)} :: '_' !in t && t !in shops ==> ShopKey(t, name) !in shop
  }

  ghost predicate GlobalIsSumOfShops(store: Store, shops: seq<string>, name: string) {
    SumOfShops(store.globalItemStats, store.shopItemStats, shops, name)
  }

  /** After one call for shop `s`, the shop totals grew by what the call added to the document of `s`. */
  lemma ShopTotalsAfterCall(before: map<string, ItemStats>, after: map<string, ItemStats>, shops: seq<string>, s: string, name: string, d: Totals)
    requires Distinct(shops) && forall i :: 0 <= i < |shops| ==> '_' !in shops[i]
    requires forall t {:trigger ShopKey(t, name)} :: '_' !in t && t != s ==> TotalsAt(after, ShopKey(t, name)) == TotalsAt(before, ShopKey(t, name))
    requires TotalsAt(after, ShopKey(s, name)) == Plus(TotalsAt(before, ShopKey(s, name)), d)
    requires s !in shops ==> ShopKey(s, name) !in before
    ensures ShopTotals(after, if s in shops then shops else shops + [s], name) == Plus(ShopTotals(before, shops, name), d)
  {
    forall i | 0 <= i < |shops| && shops[i] != s
      ensures TotalsAt(after, ShopKey(shops[i], name)) == TotalsAt(before, ShopKey(shops[i], name))
    {
      assert '_' !in shops[i];
    }
    if s in shops {
      ShopTotalsBump(before, after, shops, s, name, d);
    } else {
      ShopTotalsSame(before, after, shops, name);
      ShopTotalsNewShop(before, after, shops, s, name, d);
    }
  }

  /** A shop called for the first time adds its new document to the shop totals. */
  lemma ShopTotalsNewShop(before: map<string, ItemStats>, after: map<string, ItemStats>, shops: seq<string>, s: string, name: string, d: Totals)
    requires ShopTotals(after, shops, name) == ShopTotals(before, shops, name)
    requires TotalsAt(after, ShopKey(s, name)) == Plus(TotalsAt(before, ShopKey(s, name)), d)
    requires ShopKey(s, name) !in before
    ensures ShopTotals(after, shops + [s], name) == Plus(ShopTotals(before, shops, name), d)
  {
    ShopTotalsSnoc(after, shops, s, name);
    PlusLaws(d, d, d);
  }

  lemma ShopTotalsSnoc(stats: map<string, ItemStats>, shops: seq<string>, s: string, name: string)
    ensures ShopTotals(stats, shops + [s], name) == Plus(ShopTotals(stats, shops, name), TotalsAt(stats, ShopKey(s, name)))
  {
    assert (shops + [s])[..|shops|] == shops;
  }

  /** One call keeps the global document of every name the sum of its shop documents. */
  lemma AggregateKeepsSum(store: Store, shops: seq<string>, shopId: string, items: seq<BillItem>, sha1Hex: string -> string, name: string)
    requires GlobalIsSumOfShops(store, shops, name) && '_' !in shopId
    ensures GlobalIsSumOfShops(Aggregate(store, shopId, items, sha1Hex), if shopId in shops then shops else shops + [shopId], name)
  {
    var shop := UpsertAll(store.shopItemStats, shopId + "_", Some(shopId), items);
    var global := UpsertAll(store.globalItemStats, "", None, items);
    ShopDocumentsAfterCall(store.shopItemStats, shops, shopId, items, name);
    GlobalDocumentAfterCall(store.globalItemStats, items, name);
    SumOfShopsStep(store.globalItemStats, store.shopItemStats, global, shop, shops, shopId, name, BatchTotals(items, name));
  }

  /** The invariant carries over when the global document and the document of shop `s` grow alike. */
  lemma SumOfShopsStep(global: map<string, ItemStats>, shop: map<string, ItemStats>,
                       global': map<string, ItemStats>, shop': map<string, ItemStats>,
                       shops: seq<string>, s: string, name: string, d: Totals)
    requires SumOfShops(global, shop, shops, name) && '_' !in s
    requires TotalsAt(global', name) == Plus(TotalsAt(global, name), d)
    requires TotalsAt(shop', ShopKey(s, name)) == Plus(TotalsAt(shop, ShopKey(s, name)), d)
    requires forall t {:trigger ShopKey(t, name)} :: '_' !in t && t != s ==> TotalsAt(shop', ShopKey(t, name)) == TotalsAt(shop, ShopKey(t, name))
    requires forall t {:trigger ShopKey(t, name)} :: '_' !in t && t !in (if s in shops then shops else shops + [s]) ==> ShopKey(t, name) !in shop'
    ensures SumOfShops(global', shop', if s in shops then shops else shops + [s], name)
  {
    AddShop(shops, s);
    GlobalTotalsStep(global, shop, global', shop', shops, s, name, d);
  }

  lemma GlobalTotalsStep(global: map<string, ItemStats>, shop: map<string, ItemStats>,
                         global': map<string, ItemStats>, shop': map<string, ItemStats>,
                         shops: seq<string>, s: string, name: string, d: Totals)
    requires SumOfShops(global, shop, shops, name) && '_' !in s
    requires TotalsAt(global', name) == Plus(TotalsAt(global, name), d)
    requires TotalsAt(shop', ShopKey(s, name)) == Plus(TotalsAt(shop, ShopKey(s, name)), d)
    requires forall t {:trigger ShopKey(t, name)} :: '_' !in t && t != s ==> TotalsAt(shop', ShopKey(t, name)) == TotalsAt(shop, ShopKey(t, name))
    ensures TotalsAt(global', name) == ShopTotals(shop', if s in shops then shops else shops + [s], name)
  {
    ShopTotalsAfterCall(shop, shop', shops, s, name, d);
  }

  lemma GlobalDocumentAfterCall(stats: map<string, ItemStats>, items: seq<BillItem>, name: string)
    ensures TotalsAt(UpsertAll(stats, "", None, items), name) == Plus(TotalsAt(stats, name), BatchTotals(items, name))
  {
    assert "" + name == name;
    DocumentGrows(stats, "", None, items, name);
  }

  /**
    * A call for shop `s` adds its totals to the document of `s` and leaves every other shop's
    * document as it was.
    */
  lemma ShopDocumentsAfterCall(stats: map<string, ItemStats>, shops: seq<string>, s: string, items: seq<BillItem>, name: string)
    requires '_' !in s
    requires forall t {:trigger ShopKey(t, name)} :: '_' !in t && t !in shops ==> ShopKey(t, name) !in stats
    ensures var after := UpsertAll(stats, s + "_", Some(s), items);
            TotalsAt(after, ShopKey(s, name)) == Plus(TotalsAt(stats, ShopKey(s, name)), BatchTotals(items, name))
            && (forall t {:trigger ShopKey(t, name)} :: '_' !in t && t != s ==> TotalsAt(after, ShopKey(t, name)) == TotalsAt(stats, ShopKey(t, name)))
            && (forall t {:trigger ShopKey(t, name)} :: '_' !in t && t !in (if s in shops then shops else shops + [s]) ==> ShopKey(t, name) !in after)
  {
    var after := UpsertAll(stats, s + "_", Some(s), items);
    DocumentGrows(stats, s + "_", Some(s), items, name);
    forall t | '_' !in t && t != s
      ensures TotalsAt(after, ShopKey(t, name)) == TotalsAt(stats, ShopKey(t, name))
      ensures ShopKey(t, name) in after <==> ShopKey(t, name) in stats
    {
      OtherShopUnchanged(stats, s, items, t, name);
    }
  }

  /** Adding a shop not yet seen keeps the shops distinct and free of underscores. */
  lemma AddShop(shops: seq<string>, s: string)
    requires Distinct(shops) && (forall i :: 0 <= i < |shops| ==> '_' !in shops[i]) && '_' !in s
    ensures var shops' := if s in shops then shops else shops + [s];
            Distinct(shops') && forall i :: 0 <= i < |shops'| ==> '_' !in shops'[i]
  {
  }

  /**
    * After any calls from the empty store, with shop ids free of underscores, the global
    * document of every name holds the occurrences and price sum of its shop documents added up
    * over the shops called, and the least of their minima.
    */
  lemma {:induction false} ReplayGlobalIsSumOfShops(calls: seq<Call>, sha1Hex: string -> string, name: string)
    requires forall i :: 0 <= i < |calls| ==> '_' !in calls[i].shopId
    ensures GlobalIsSumOfShops(Replay(Store(map[], map[], map[]), calls, sha1Hex), ShopsOf(calls), name)
  {
    if calls != [] {
      var front := calls[..|calls| - 1];
      var call := calls[|calls| - 1];
      assert forall i :: 0 <= i < |front| ==> front[i] == calls[i];
      ReplayGlobalIsSumOfShops(front, sha1Hex, name);
      AggregateKeepsSum(Replay(Store(map[], map[], map[]), front, sha1Hex), ShopsOf(front), call.shopId, ValidItems(call.billItems), sha1Hex, name);
    }
  }

  /**
    * After any calls from the empty store, with shop ids free of underscores, a name has a global
    * document exactly when some shop called has a document of it, and then the global minimum
    * is the least of the shop minima.
    */
  lemma ReplayGlobalMinimum(calls: seq<Call>, sha1Hex: string -> string, name: string)
    requires forall i :: 0 <= i < |calls| ==> '_' !in calls[i].shopId
    ensures var r := Replay(Store(map[], map[], map[]), calls, sha1Hex);
            var shops := ShopsOf(calls);
            (name in r.globalItemStats <==> exists i :: 0 <= i < |shops| && ShopKey(shops[i], name) in r.shopItemStats)
            && (name in r.globalItemStats ==>
                  (forall i :: 0 <= i < |shops| && ShopKey(shops[i], name) in r.shopItemStats ==>
                     r.globalItemStats[name].minUnitPrice <= r.shopItemStats[ShopKey(shops[i], name)].minUnitPrice)
                  && exists i :: 0 <= i < |shops| && ShopKey(shops[i], name) in r.shopItemStats
                                 && r.globalItemStats[name].minUnitPrice == r.shopItemStats[ShopKey(shops[i], name)].minUnitPrice)
  {
    var r := Replay(Store(map[], map[], map[]), calls, sha1Hex);
    var shops := ShopsOf(calls);
    ReplayGlobalIsSumOfShops(calls, sha1Hex, name);
    assert TotalsAt(r.globalItemStats, name) == ShopTotals(r.shopItemStats, shops, name);
    ShopTotalsHasMinimum(r.shopItemStats, shops, name);
    if name in r.globalItemStats {
      forall i | 0 <= i < |shops| && ShopKey(shops[i], name) in r.shopItemStats
        ensures r.globalItemStats[name].minUnitPrice <= r.shopItemStats[ShopKey(shops[i], name)].minUnitPrice
      {
        ShopTotalsMinimumLeast(r.shopItemStats, shops, name, i);
      }
      ShopTotalsMinimumAttained(r.shopItemStats, shops, name);
    }
  }

  /** The three collections, updated in place. */
  class AggregationStore {
    var shopItemStats: map<string, ItemStats>
    var globalItemStats: map<string, ItemStats>
    var itemRawExamples: map<ExampleKey, Example>

    constructor ()
      ensures Contents() == Store(map[], map[], map[])
      ensures Valid()
    {
      shopItemStats := map[];
      globalItemStats := map[];
      itemRawExamples := map[];
    }

    function Contents(): Store
      reads this
    {
      Store(shopItemStats, globalItemStats, itemRawExamples)
    }

    ghost predicate Valid()
      reads this
    {
      StoreValid(Contents())
    }

    /**
      * `updateAggregationsForBillItems`: keep the items with a positive price; when there are none,
      * return at once; otherwise upsert, item by item, the shop document, the global document and
      * the example.
      */
    method UpdateAggregationsForBillItems(shopId: string, billItems: seq<BillItem>, sha1Hex: string -> string)
      modifies this
      ensures Contents() == Aggregate(old(Contents()), shopId, ValidItems(billItems), sha1Hex)
      ensures old(Valid()) ==> Valid()
    {
      var validItems := ValidItems(billItems);
      ValidItemsPositive(billItems);
      if |validItems| == 0 {
        return;
      }
      ghost var start := Contents();
      for k := 0 to |validItems|
        invariant Contents() == Aggregate(start, shopId, validItems[..k], sha1Hex)
      {
        var item := validItems[k];
        AggregateStep(start, shopId, validItems, k, sha1Hex);
        UpsertShopItemStats(shopId, item);
        UpsertGlobalItemStats(item);
        CountRawExample(item, sha1Hex);
      }
      assert validItems[..|validItems|] == validItems;
      if StoreValid(start) {
        AggregateValid(start, shopId, validItems, sha1Hex);
      }
    }

    /** The shop document of the item: created with the item's price, or updated by it. */
    method UpsertShopItemStats(shopId: string, item: BillItem)
      modifies this
      ensures shopItemStats == Upsert(old(shopItemStats), ShopKey(shopId, item.normalizedName), Some(shopId), item)
      ensures globalItemStats == old(globalItemStats) && itemRawExamples == old(itemRawExamples)
    {
      var shopKey := shopId + "_" + item.normalizedName;
      if shopKey !in shopItemStats {
        shopItemStats := shopItemStats[shopKey := ItemStats(
          Some(shopId), item.normalizedName, item.category, item.unit, 1, item.unitPrice, item.unitPrice, item.unitPrice)];
      } else {
        var data := shopItemStats[shopKey];
        var newOccurrences := data.occurrences + 1;
        var newSum := data.sumUnitPrice + item.unitPrice;
        shopItemStats := shopItemStats[shopKey := data.(
          occurrences := newOccurrences, sumUnitPrice := newSum,
          minUnitPrice := Least(data.minUnitPrice, item.unitPrice), avgUnitPrice := newSum / newOccurrences as real)];
      }
    }

    /** The global document of the item, keyed by its normalised name alone. */
    method UpsertGlobalItemStats(item: BillItem)
      modifies this
      ensures globalItemStats == Upsert(old(globalItemStats), item.normalizedName, None, item)
      ensures shopItemStats == old(shopItemStats) && itemRawExamples == old(itemRawExamples)
    {
      var globalKey := item.normalizedName;
      if globalKey !in globalItemStats {
        globalItemStats := globalItemStats[globalKey := ItemStats(
          None, item.normalizedName, item.category, item.unit, 1, item.unitPrice, item.unitPrice, item.unitPrice)];
      } else {
        var data := globalItemStats[globalKey];
        var newOccurrences := data.occurrences + 1;
        var newSum := data.sumUnitPrice + item.unitPrice;
        globalItemStats := globalItemStats[globalKey := data.(
          occurrences := newOccurrences, sumUnitPrice := newSum,
          minUnitPrice := Least(data.minUnitPrice, item.unitPrice), avgUnitPrice := newSum / newOccurrences as real)];
      }
    }

    /** The example of the item's raw name: created with count 1, or counted once more. */
    method CountRawExample(item: BillItem, sha1Hex: string -> string)
      modifies this
      ensures itemRawExamples == Seen(old(itemRawExamples), ExampleKeyOf(item, sha1Hex), item.rawName)
      ensures shopItemStats == old(shopItemStats) && globalItemStats == old(globalItemStats)
    {
      var exampleId := CreateExampleId(sha1Hex, item.normalizedName, item.rawName);
      var exampleKey := ExampleKey(item.normalizedName, exampleId);
      if exampleKey !in itemRawExamples {
        itemRawExamples := itemRawExamples[exampleKey := Example(item.rawName, 1)];
      } else {
        var example := itemRawExamples[exampleKey];
        itemRawExamples := itemRawExamples[exampleKey := example.(count := example.count + 1)];
      }
    }
  }
}
