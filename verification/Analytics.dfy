/** Sales grouped by product, customer, city and category, and what the grouping conserves. */
module Analytics {
  import opened Text
  import opened Sequences
  import opened OrderedMap

  // ----- Grouping -----

  /** The distinct keys of the elements, in order of first appearance. */
  function KeysOf<T>(s: seq<T>, key: T -> string): seq<string> {
    if s == [] then []
    else
      var before := KeysOf(s[..|s| - 1], key);
      var k := key(s[|s| - 1]);
      if k in before then before else before + [k]
  }

  lemma {:induction false} KeysOfSnoc<T>(s: seq<T>, x: T, key: T -> string)
    ensures KeysOf(s + [x], key) == if key(x) in KeysOf(s, key) then KeysOf(s, key) else KeysOf(s, key) + [key(x)]
  {
    assert (s + [x])[..|s|] == s;
  }

  lemma {:induction false} KeysOfMeaning<T>(s: seq<T>, key: T -> string)
    ensures Distinct(KeysOf(s, key)) && |KeysOf(s, key)| <= |s|
    ensures forall i :: 0 <= i < |s| ==> key(s[i]) in KeysOf(s, key)
    ensures forall k <- KeysOf(s, key) :: exists i :: 0 <= i < |s| && key(s[i]) == k
  {
    if s != [] {
      KeysOfMeaning(s[..|s| - 1], key);
      assert forall i :: 0 <= i < |s| - 1 ==> s[..|s| - 1][i] == s[i];
    }
  }

  lemma NoKeys<T>(s: seq<T>, key: T -> string)
    requires s == []
    ensures KeysOf(s, key) == []
  {
  }

  function HasKey<T>(k: string, key: T -> string): T -> bool {
    x => key(x) == k
  }

  /** Sum over the keys of what the elements with that key add up to. */
  function SumByKey<T>(keys: seq<string>, s: seq<T>, key: T -> string, f: T -> int): int {
    if keys == [] then 0 else SumWhere(s, HasKey(keys[0], key), f) + SumByKey(keys[1..], s, key, f)
  }

  lemma {:induction false} SumByKeyCons<T>(keys: seq<string>, s: seq<T>, key: T -> string, f: T -> int)
    requires s != [] && Distinct(keys)
    ensures SumByKey(keys, s, key, f) == SumByKey(keys, s[1..], key, f) + if key(s[0]) in keys then f(s[0]) else 0
  {
    if keys != [] {
      assert forall i :: 0 <= i < |keys[1..]| ==> keys[1..][i] == keys[i + 1];
      SumByKeyCons(keys[1..], s, key, f);
      assert keys == [keys[0]] + keys[1..];
      assert keys[0] !in keys[1..];
    }
  }

  /** Grouping loses nothing and counts nothing twice. */
  lemma {:induction false} GroupingConserves<T>(keys: seq<string>, s: seq<T>, key: T -> string, f: T -> int)
    requires Distinct(keys) && forall i :: 0 <= i < |s| ==> key(s[i]) in keys
    ensures SumByKey(keys, s, key, f) == Sum(s, f)
    decreases |s|
  {
    if s == [] {
      EmptyGroups(keys, s, key, f);
    } else {
      assert forall i :: 0 <= i < |s[1..]| ==> s[1..][i] == s[i + 1];
      SumByKeyCons(keys, s, key, f);
      GroupingConserves(keys, s[1..], key, f);
    }
  }

  lemma {:induction false} EmptyGroups<T>(keys: seq<string>, s: seq<T>, key: T -> string, f: T -> int)
    requires s == []
    ensures SumByKey(keys, s, key, f) == 0
  {
    if keys != [] {
      EmptyGroups(keys[1..], s, key, f);
    }
  }

  function One<T>(x: T): int {
    1
  }

  lemma {:induction false} SumOfOnes<T>(s: seq<T>, keep: T -> bool)
    ensures Sum(s, One) == |s| && SumWhere(s, keep, One) == Count(s, keep)
  {
    if s != [] {
      SumOfOnes(s[1..], keep);
    }
  }

  // ----- Top products -----

  datatype Item = Item(barcode: string, productName: Option<string>, quantity: int, unitPrice: int)

  function Barcode(item: Item): string {
    item.barcode
  }

  function Quantity(item: Item): int {
    item.quantity
  }

  function Revenue(item: Item): int {
    item.quantity * item.unitPrice
  }

  datatype ProductStats = ProductStats(productName: Option<string>, quantity: int, revenue: int, orderCount: nat)

  predicate Named(name: Option<string>) {
    name.Some? && name.value != ""
  }

  /** The first name that is not blank, or else the name of the first item. */
  function NameFor(items: seq<Item>, barcode: string): Option<string> {
    if items == [] then None
    else
      var before, last := NameFor(items[..|items| - 1], barcode), items[|items| - 1];
      if last.barcode != barcode then before
      else if !(exists item <- items[..|items| - 1] :: item.barcode == barcode) then last.productName
      else if !Named(before) && Named(last.productName) then last.productName
      else before
  }

  function StatsOf(items: seq<Item>, barcode: string): ProductStats {
    ProductStats(
      NameFor(items, barcode),
      SumWhere(items, HasKey(barcode, Barcode), Quantity),
      SumWhere(items, HasKey(barcode, Barcode), Revenue),
      Count(items, HasKey(barcode, Barcode)))
  }

  datatype Product = Product(barcode: string, stats: ProductStats)

  ghost predicate TalliesProducts(m: JsMap<string, ProductStats>, items: seq<Item>) {
    && m.Valid() && m.keys == KeysOf(items, Barcode)
    && forall b :: b in m.at ==> m.at[b] == StatsOf(items, b)
  }

  function AddItem(stats: ProductStats, item: Item): ProductStats {
    ProductStats(
      if !Named(stats.productName) && Named(item.productName) then item.productName else stats.productName,
      stats.quantity + item.quantity, stats.revenue + item.quantity * item.unitPrice, stats.orderCount + 1)
  }

  lemma {:induction false} NameSnoc(items: seq<Item>, item: Item, barcode: string)
    ensures NameFor(items + [item], barcode)
         == if item.barcode != barcode then NameFor(items, barcode)
            else if barcode !in KeysOf(items, Barcode) then item.productName
            else if !Named(NameFor(items, barcode)) && Named(item.productName) then item.productName
            else NameFor(items, barcode)
  {
    hide KeysOf;
    assert (items + [item])[..|items|] == items && (items + [item])[|items|] == item;
    KeysOfMeaning(items, Barcode);
    assert barcode in KeysOf(items, Barcode) <==> exists other <- items :: other.barcode == barcode by {
      if other :| other in items && other.barcode == barcode {
        var i :| 0 <= i < |items| && items[i] == other;
        assert Barcode(items[i]) in KeysOf(items, Barcode);
      }
      if barcode in KeysOf(items, Barcode) {
        var i :| 0 <= i < |items| && Barcode(items[i]) == barcode;
        assert items[i] in items;
      }
    }
  }

  lemma {:induction false} NothingBefore(items: seq<Item>, barcode: string)
    requires barcode !in KeysOf(items, Barcode)
    ensures var stats := StatsOf(items, barcode);
      stats.quantity == stats.revenue == stats.orderCount == 0
  {
    hide KeysOf;
    var keep := HasKey(barcode, Barcode);
    KeysOfMeaning(items, Barcode);
    forall i | 0 <= i < |items| ensures !keep(items[i]) {
      assert Barcode(items[i]) in KeysOf(items, Barcode);
    }
    NoneCounted(items, keep);
    NoneSummed(items, keep, Quantity);
    NoneSummed(items, keep, Revenue);
  }

  lemma {:induction false} StatsSnoc(items: seq<Item>, item: Item, barcode: string)
    ensures StatsOf(items + [item], barcode)
         == if item.barcode != barcode then StatsOf(items, barcode)
            else if barcode in KeysOf(items, Barcode) then AddItem(StatsOf(items, barcode), item)
            else AddItem(ProductStats(item.productName, 0, 0, 0), item)
  {
    hide KeysOf, NameFor, Named;
    var keep := HasKey(barcode, Barcode);
    SumWhereAppend(items, [item], keep, Quantity);
    SumWhereAppend(items, [item], keep, Revenue);
    CountAppend(items, [item], keep);
    assert [item][1..] == [];
    NameSnoc(items, item, barcode);
    if barcode !in KeysOf(items, Barcode) {
      NothingBefore(items, barcode);
    }
  }

  lemma {:induction false} NoneSummed<T>(s: seq<T>, keep: T -> bool, f: T -> int)
    requires forall i :: 0 <= i < |s| ==> !keep(s[i])
    ensures SumWhere(s, keep, f) == 0
  {
    if s != [] {
      forall i | 0 <= i < |s[1..]| ensures !keep(s[1..][i]) {
        assert !keep(s[i + 1]);
      }
      NoneSummed(s[1..], keep, f);
    }
  }

  lemma {:induction false} TallySnoc(m: JsMap<string, ProductStats>, items: seq<Item>, item: Item)
    requires TalliesProducts(m, items)
    ensures var stats := if item.barcode in m.at then m.at[item.barcode] else ProductStats(item.productName, 0, 0, 0);
      TalliesProducts(m.Set(item.barcode, AddItem(stats, item)), items + [item])
  {
    hide StatsOf, AddItem, KeysOf;
    KeysOfSnoc(items, item, Barcode);
    forall b {
      StatsSnoc(items, item, b);
    }
  }

  function ProductRank(p: Product): int {
    -p.stats.quantity
  }

  function ProductRow(m: map<string, ProductStats>): string -> Product {
    b => Product(b, if b in m then m[b] else ProductStats(None, 0, 0, 0))
  }

  function ProductOf(items: seq<Item>): string -> Product {
    b => Product(b, StatsOf(items, b))
  }

  /** One row per barcode, in order of first appearance. */
  function ProductTable(items: seq<Item>): seq<Product> {
    Map(KeysOf(items, Barcode), ProductOf(items))
  }

  function Distance(a: int, b: int): int {
    if a < b then b - a else a - b
  }

  /** Ten without a limit, or else the number from 1 to 50 nearest to it. */
  function SafeLimit(limit: Option<int>): (r: nat)
    ensures 1 <= r <= 50
    ensures limit.None? ==> r == 10
    ensures limit.Some? ==> forall k :: 1 <= k <= 50 ==> Distance(r, limit.value) <= Distance(k, limit.value)
  {
    var n := if limit.Some? then limit.value else 10;
    if n < 1 then 1 else if n > 50 then 50 else n
  }

  method GetTopProducts(items: seq<Item>, limit: Option<int>) returns (products: seq<Product>)
    ensures products == Take(Sort(ProductTable(items), ProductRank), SafeLimit(limit))
  {
    hide StatsOf, KeysOf, AddItem;
    var byBarcode: JsMap<string, ProductStats> := Empty();
    assert TalliesProducts(byBarcode, items[..0]) by {
      assert KeysOf(items[..0], Barcode) == [] by { KeysOfMeaning(items[..0], Barcode); }
    }
    for n := 0 to |items|
      invariant TalliesProducts(byBarcode, items[..n])
    {
      var item := items[n];
      var existing := if item.barcode in byBarcode.at then byBarcode.at[item.barcode]
                      else ProductStats(item.productName, 0, 0, 0);
      TallySnoc(byBarcode, items[..n], item);
      assert items[..n + 1] == items[..n] + [item];
      var updated := existing.(
        quantity := existing.quantity + item.quantity,
        revenue := existing.revenue + item.quantity * item.unitPrice,
        orderCount := existing.orderCount + 1);
      if !Named(updated.productName) && Named(item.productName) {
        updated := updated.(productName := item.productName);
      }
      assert updated == AddItem(existing, item) by { AddItemMeaning(existing, item); }
      byBarcode := byBarcode.Set(item.barcode, updated);
    }
    assert items[..|items|] == items;
    var rows := Map(byBarcode.keys, ProductRow(byBarcode.at));
    assert rows == ProductTable(items);
    products := Take(Sort(rows, ProductRank), SafeLimit(limit));
  }

  lemma AddItemMeaning(stats: ProductStats, item: Item)
    ensures AddItem(stats, item) == stats.(
      quantity := stats.quantity + item.quantity,
      revenue := stats.revenue + item.quantity * item.unitPrice,
      orderCount := stats.orderCount + 1,
      productName :=
        if !Named(stats.productName) && Named(item.productName) then item.productName else stats.productName)
  {
  }

  function RowQuantity(p: Product): int {
    p.stats.quantity
  }

  function RowRevenue(p: Product): int {
    p.stats.revenue
  }

  function RowCount(p: Product): int {
    p.stats.orderCount
  }

  lemma {:induction false} TableSums(keys: seq<string>, items: seq<Item>)
    ensures Sum(Map(keys, ProductOf(items)), RowQuantity) == SumByKey(keys, items, Barcode, Quantity)
    ensures Sum(Map(keys, ProductOf(items)), RowRevenue) == SumByKey(keys, items, Barcode, Revenue)
    ensures Sum(Map(keys, ProductOf(items)), RowCount) == SumByKey(keys, items, Barcode, One)
  {
    if keys != [] {
      TableSums(keys[1..], items);
      assert Map(keys, ProductOf(items))[1..] == Map(keys[1..], ProductOf(items));
      SumOfOnes(items, HasKey(keys[0], Barcode));
    }
  }

  /** Before the cut, quantities, revenues and line counts add up to those of the items. */
  lemma {:induction false} ProductsConserve(items: seq<Item>)
    ensures Sum(ProductTable(items), RowQuantity) == Sum(items, Quantity)
    ensures Sum(ProductTable(items), RowRevenue) == Sum(items, Revenue)
    ensures Sum(ProductTable(items), RowCount) == |items|
  {
    hide KeysOf;
    var keys := KeysOf(items, Barcode);
    KeysOfMeaning(items, Barcode);
    TableSums(keys, items);
    GroupingConserves(keys, items, Barcode, Quantity);
    GroupingConserves(keys, items, Barcode, Revenue);
    GroupingConserves(keys, items, Barcode, One);
    SumOfOnes(items, HasKey("", Barcode));
  }

  /** Of different elements, the cut keeps different ones. */
  lemma {:induction false} TopOfSorted<T(!new)>(s: seq<T>, rank: T -> int, n: nat)
    requires Distinct(s)
    ensures var top := Take(Sort(s, rank), n);
      && Sorted(top, rank) && Distinct(top)
      && |top| == (if |s| <= n then |s| else n)
      && (forall x <- top :: x in s)
      && (forall x <- s, y <- top :: x !in top ==> rank(y) <= rank(x))
  {
    hide Sort;
    CutOfSorted(s, rank, n);
    SortKeepsDistinct(s, rank);
  }

  /** Main result on the top list. */
  lemma {:induction false} TopProductsMeaning(items: seq<Item>, limit: Option<int>)
    ensures var top := Take(Sort(ProductTable(items), ProductRank), SafeLimit(limit));
      && |top| == (if |KeysOf(items, Barcode)| <= SafeLimit(limit) then |KeysOf(items, Barcode)| else SafeLimit(limit))
      && (forall i, j :: 0 <= i < j < |top| ==> top[i].stats.quantity >= top[j].stats.quantity)
      && (forall i, j :: 0 <= i < j < |top| ==> top[i].barcode != top[j].barcode)
      && (forall p <- top :: p.stats == StatsOf(items, p.barcode))
      && (forall item <- items, p <- top :: (forall q <- top :: q.barcode != item.barcode) ==>
            StatsOf(items, item.barcode).quantity <= p.stats.quantity)
  {
    hide KeysOf, StatsOf, Sort;
    var table := ProductTable(items);
    var top := Take(Sort(table, ProductRank), SafeLimit(limit));
    KeysOfMeaning(items, Barcode);
    TopOfSorted(table, ProductRank, SafeLimit(limit));
    forall p <- top ensures p.stats == StatsOf(items, p.barcode) {
      assert p in table;
    }
    forall i, j | 0 <= i < j < |top| ensures top[i].barcode != top[j].barcode {
      assert top[i] in top && top[j] in top && top[i] != top[j];
    }
    forall item <- items, p <- top | forall q <- top :: q.barcode != item.barcode
      ensures StatsOf(items, item.barcode).quantity <= p.stats.quantity
    {
      var i :| 0 <= i < |items| && items[i] == item;
      var keys := KeysOf(items, Barcode);
      assert Barcode(items[i]) in keys;
      var k :| 0 <= k < |keys| && keys[k] == item.barcode;
      assert table[k] in table && table[k] !in top;
      assert ProductRank(p) <= ProductRank(table[k]);
    }
  }

  // ----- Rows, field by field -----

  lemma {:induction false} MeasuresOnFields(item: Item)
    ensures Barcode(item) == item.barcode && Quantity(item) == item.quantity
    ensures Revenue(item) == item.quantity * item.unitPrice
  {
  }

  /** Quantity, revenue and number of lines of a barcode, read off the items. */
  lemma {:induction false} StatsOnFields(items: seq<Item>, barcode: string)
    ensures var stats := StatsOf(items, barcode);
            var mine := (item: Item) => item.barcode == barcode;
      && stats.quantity == SumWhere(items, mine, (item: Item) => item.quantity)
      && stats.revenue == SumWhere(items, mine, (item: Item) => item.quantity * item.unitPrice)
      && stats.orderCount == Count(items, mine)
  {
    var mine := (item: Item) => item.barcode == barcode;
    var quantity, revenue := (item: Item) => item.quantity, (item: Item) => item.quantity * item.unitPrice;
    forall item: Item
      ensures HasKey(barcode, Barcode)(item) == mine(item)
      ensures Quantity(item) == quantity(item) && Revenue(item) == revenue(item)
    {
      assert Barcode(item) == item.barcode;
    }
    SumWhereAlike(items, HasKey(barcode, Barcode), mine, Quantity, quantity);
    SumWhereAlike(items, HasKey(barcode, Barcode), mine, Revenue, revenue);
  }

  /** The item's product name is not blank. */
  predicate HasName(item: Item) {
    item.productName.Some? && item.productName.value != ""
  }

  /** A product is called by its first name that is not blank; without one, by what its first item holds. */
  lemma {:induction false} NameOnFields(items: seq<Item>, barcode: string, i: nat)
    requires i < |items| && items[i].barcode == barcode
    ensures HasName(items[i]) && (forall j :: 0 <= j < i && items[j].barcode == barcode ==> !HasName(items[j])) ==>
      NameFor(items, barcode) == items[i].productName
    ensures (forall j :: 0 <= j < |items| && items[j].barcode == barcode ==> !HasName(items[j])) &&
            (forall j :: 0 <= j < i ==> items[j].barcode != barcode) ==>
      NameFor(items, barcode) == items[i].productName
  {
    var n := |items| - 1;
    var before := items[..n];
    assert forall j :: 0 <= j < n ==> before[j] == items[j];
    if i < n {
      NameOnFields(before, barcode, i);
      assert before[i] in before;
    } else if forall j :: 0 <= j < n && items[j].barcode == barcode ==> !HasName(items[j]) {
      NamelessBefore(before, barcode);
    }
  }

  lemma {:induction false} NamelessBefore(items: seq<Item>, barcode: string)
    requires forall j :: 0 <= j < |items| && items[j].barcode == barcode ==> !HasName(items[j])
    ensures !Named(NameFor(items, barcode))
  {
    if items != [] {
      var before := items[..|items| - 1];
      assert forall j :: 0 <= j < |before| ==> before[j] == items[j];
      NamelessBefore(before, barcode);
    }
  }

  /** Keys come in the order in which they first appear. */
  lemma {:induction false} KeysInOrder<T>(s: seq<T>, key: T -> string, i: nat, j: nat)
    requires i < j < |KeysOf(s, key)|
    ensures exists p :: 0 <= p < |s| && key(s[p]) == KeysOf(s, key)[i]
              && forall q :: 0 <= q <= p ==> key(s[q]) != KeysOf(s, key)[j]
  {
    var n := |s| - 1;
    var before, keys := s[..n], KeysOf(s, key);
    KeysOfMeaning(before, key);
    if j < |KeysOf(before, key)| {
      KeysInOrder(before, key, i, j);
      var p :| 0 <= p < |before| && key(before[p]) == keys[i] && forall q :: 0 <= q <= p ==> key(before[q]) != keys[j];
      assert forall q :: 0 <= q <= p ==> s[q] == before[q];
    } else {
      assert keys[j] == key(s[n]) && keys[i] in KeysOf(before, key);
      var p :| 0 <= p < |before| && key(before[p]) == keys[i];
      forall q | 0 <= q <= p ensures key(s[q]) != keys[j] {
        assert key(before[q]) in KeysOf(before, key);
      }
    }
  }

  /** Before the cut, products of equal quantity keep the order of the table. */
  lemma {:induction false} TiesKeepOrder(items: seq<Item>, quantity: int)
    ensures var alike := (p: Product) => p.stats.quantity == quantity;
      Filter(Sort(ProductTable(items), ProductRank), alike) == Filter(ProductTable(items), alike)
  {
    hide Sort, Filter, ProductTable;
    var table, alike := ProductTable(items), (p: Product) => p.stats.quantity == quantity;
    forall p: Product ensures alike(p) == WithRank(-quantity, ProductRank)(p) {
      assert ProductRank(p) == -p.stats.quantity;
    }
    SortIsStable(table, -quantity, ProductRank);
    FilterAlike(table, alike, WithRank(-quantity, ProductRank));
    FilterAlike(Sort(table, ProductRank), alike, WithRank(-quantity, ProductRank));
  }
}
