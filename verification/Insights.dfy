/** Orders grouped by customer and by city, and item revenue grouped by category. */
module Insights {
  import opened Text
  import opened Division
  import opened Sequences
  import opened OrderedMap
  import opened Analytics

  // ----- Customers and cities -----

  datatype Order = Order(customerName: string, customerPhone: Option<string>, total: int, address: Option<string>)

  /** A customer is known by phone, or else by name. */
  function CustomerKey(order: Order, lower: Fold): string {
    var phone := if order.customerPhone.Some? then Trim(order.customerPhone.value) else "";
    if |phone| > 0 then "tel:" + phone else "name:" + lower(Trim(order.customerName))
  }

  function CustomerKeyOf(lower: Fold): Order -> string {
    order => CustomerKey(order, lower)
  }

  function TrimmedParts(parts: seq<string>): seq<string> {
    Filter(Map(parts, Trim), (p: string) => |p| > 0)
  }

  function ExtractCity(address: Option<string>): string {
    var line := if address.Some? then Trim(address.value) else "";
    if |line| == 0 then "Belirtilmemiş"
    else
      var parts := TrimmedParts(Split(line, ','));
      if |parts| >= 2 then parts[|parts| - 1]
      else if |line| > 40 then line[..40] + "…"
      else line
  }

  function City(order: Order): string {
    ExtractCity(order.address)
  }

  function Amount(order: Order): int {
    order.total
  }

  datatype CityStats = CityStats(orderCount: nat, revenue: int)

  function CityStatsOf(orders: seq<Order>, city: string): CityStats {
    CityStats(Count(orders, HasKey(city, City)), SumWhere(orders, HasKey(city, City), Amount))
  }

  datatype CityRow = CityRow(city: string, stats: CityStats)

  function CityRank(row: CityRow): int {
    0 - row.stats.orderCount
  }

  function CityOf(orders: seq<Order>): string -> CityRow {
    city => CityRow(city, CityStatsOf(orders, city))
  }

  function CityTable(orders: seq<Order>): seq<CityRow> {
    Map(KeysOf(orders, City), CityOf(orders))
  }

  /** `repeatCustomerRate` is in tenths of a percent, `avgOrderValue` in kuruş. */
  datatype CustomerInsights = CustomerInsights(
    repeatCustomerRate: int, avgOrderValue: int, totalCustomers: nat, repeatCustomers: nat, topCities: seq<CityRow>)

  /** The orders of each customer, counted. */
  ghost predicate CountsOrders<T(!new)>(m: JsMap<string, nat>, s: seq<T>, key: T -> string) {
    && m.Valid() && m.keys == KeysOf(s, key)
    && forall k :: k in m.at ==> m.at[k] == Count(s, HasKey(k, key))
  }

  /** `map.set(key, (map.get(key) ?? 0) + 1)` */
  function OneMore(m: JsMap<string, nat>, k: string): (r: JsMap<string, nat>)
    requires m.Valid()
    ensures r.Valid()
  {
    m.Set(k, (if k in m.at then m.at[k] else 0) + 1)
  }

  lemma {:induction false} CountSnoc<T(!new)>(m: JsMap<string, nat>, s: seq<T>, x: T, key: T -> string)
    requires CountsOrders(m, s, key)
    ensures CountsOrders(OneMore(m, key(x)), s + [x], key)
  {
    hide KeysOf;
    KeysOfSnoc(s, x, key);
    KeysOfMeaning(s, key);
    forall k ensures Count(s + [x], HasKey(k, key)) == Count(s, HasKey(k, key)) + if key(x) == k then 1 else 0 {
      CountAppend(s, [x], HasKey(k, key));
    }
    var k := key(x);
    if k !in m.keys {
      forall i | 0 <= i < |s| ensures !HasKey(k, key)(s[i]) {}
      NoneCounted(s, HasKey(k, key));
    }
  }

  ghost predicate TalliesCities(m: JsMap<string, CityStats>, orders: seq<Order>) {
    && m.Valid() && m.keys == KeysOf(orders, City)
    && forall c :: c in m.at ==> m.at[c] == CityStatsOf(orders, c)
  }

  function AddToCity(m: JsMap<string, CityStats>, order: Order): (r: JsMap<string, CityStats>)
    requires m.Valid()
    ensures r.Valid()
  {
    var city := City(order);
    var entry := if city in m.at then m.at[city] else CityStats(0, 0);
    m.Set(city, CityStats(entry.orderCount + 1, entry.revenue + order.total))
  }

  lemma {:induction false} CitySnoc(m: JsMap<string, CityStats>, orders: seq<Order>, order: Order)
    requires TalliesCities(m, orders)
    ensures TalliesCities(AddToCity(m, order), orders + [order])
  {
    hide KeysOf, City, CityStatsOf;
    KeysOfSnoc(orders, order, City);
    forall c {
      CityGrows(orders, order, c);
    }
    if City(order) !in m.keys {
      CityStarts(orders, City(order));
    }
  }

  lemma {:induction false} CityGrows(orders: seq<Order>, order: Order, c: string)
    ensures var before := CityStatsOf(orders, c);
      CityStatsOf(orders + [order], c) ==
        if City(order) != c then before else CityStats(before.orderCount + 1, before.revenue + order.total)
  {
    hide City;
    CountAppend(orders, [order], HasKey(c, City));
    SumWhereAppend(orders, [order], HasKey(c, City), Amount);
    assert [order][1..] == [];
  }

  lemma {:induction false} CityStarts(orders: seq<Order>, c: string)
    requires c !in KeysOf(orders, City)
    ensures CityStatsOf(orders, c) == CityStats(0, 0)
  {
    hide KeysOf, City;
    KeysOfMeaning(orders, City);
    forall i | 0 <= i < |orders| ensures !HasKey(c, City)(orders[i]) {
      assert City(orders[i]) in KeysOf(orders, City);
    }
    NoneCounted(orders, HasKey(c, City));
    NoneSummed(orders, HasKey(c, City), Amount);
  }

  function Repeats(orders: seq<Order>, lower: Fold): string -> bool {
    k => Count(orders, HasKey(k, CustomerKeyOf(lower))) > 1
  }

  /** Number of different customers, and of those with more than one order. */
  function TotalCustomers(orders: seq<Order>, lower: Fold): nat {
    |KeysOf(orders, CustomerKeyOf(lower))|
  }

  function RepeatCustomers(orders: seq<Order>, lower: Fold): nat {
    Count(KeysOf(orders, CustomerKeyOf(lower)), Repeats(orders, lower))
  }

  method TallyOrders(orders: seq<Order>, lower: Fold)
    returns (customerOrderCounts: JsMap<string, nat>, cityStats: JsMap<string, CityStats>, totalRevenue: int)
    ensures CountsOrders(customerOrderCounts, orders, CustomerKeyOf(lower))
    ensures TalliesCities(cityStats, orders)
    ensures totalRevenue == Sum(orders, Amount)
  {
    hide City, CustomerKey, CountsOrders, TalliesCities, KeysOf, CityStatsOf, Count, Sum, OneMore, AddToCity;
    customerOrderCounts, cityStats, totalRevenue := Empty(), Empty(), 0;
    NothingTallied(orders[..0], CustomerKeyOf(lower));
    for n := 0 to |orders|
      invariant customerOrderCounts.Valid() && CountsOrders(customerOrderCounts, orders[..n], CustomerKeyOf(lower))
      invariant cityStats.Valid() && TalliesCities(cityStats, orders[..n])
      invariant totalRevenue == Sum(orders[..n], Amount)
    {
      var order := orders[n];
      PrefixSnoc(orders, n);
      SumPrefix(orders, n, Amount);
      CountSnoc(customerOrderCounts, orders[..n], order, CustomerKeyOf(lower));
      CitySnoc(cityStats, orders[..n], order);
      totalRevenue := totalRevenue + order.total;
      customerOrderCounts := OneMore(customerOrderCounts, CustomerKey(order, lower));
      cityStats := AddToCity(cityStats, order);
    }
    WholePrefix(orders);
  }

  lemma NothingTallied(orders: seq<Order>, key: Order -> string)
    requires orders == []
    ensures CountsOrders(Empty(), orders, key) && TalliesCities(Empty(), orders) && Sum(orders, Amount) == 0
  {
  }

  function CityRowOf(m: map<string, CityStats>): string -> CityRow {
    city => CityRow(city, if city in m then m[city] else CityStats(0, 0))
  }

  method CountRepeats(m: JsMap<string, nat>, orders: seq<Order>, lower: Fold) returns (repeatCustomers: nat)
    requires CountsOrders(m, orders, CustomerKeyOf(lower))
    ensures repeatCustomers == RepeatCustomers(orders, lower)
  {
    hide KeysOf, CustomerKey;
    repeatCustomers := 0;
    for n := 0 to |m.keys|
      invariant repeatCustomers == Count(m.keys[..n], Repeats(orders, lower))
    {
      var key := m.keys[n];
      PrefixSnoc(m.keys, n);
      CountAppend(m.keys[..n], [key], Repeats(orders, lower));
      assert key in m.keys;
      if m.at[key] > 1 {
        repeatCustomers := repeatCustomers + 1;
      }
    }
    WholePrefix(m.keys);
  }

  method GetCustomerInsights(orders: seq<Order>, lower: Fold) returns (r: CustomerInsights)
    ensures r.totalCustomers == TotalCustomers(orders, lower)
    ensures r.repeatCustomers == RepeatCustomers(orders, lower)
    ensures r.repeatCustomerRate
         == if r.totalCustomers == 0 then 0 else Round(1000 * r.repeatCustomers, r.totalCustomers)
    ensures r.avgOrderValue == if orders == [] then 0 else Round(Sum(orders, Amount), |orders|)
    ensures r.topCities == Take(Sort(CityTable(orders), CityRank), 15)
  {
    hide KeysOf, Round, CityStatsOf, RepeatCustomers, Sort, Sum, CustomerKey, City;
    var customerOrderCounts, cityStats, totalRevenue := TallyOrders(orders, lower);
    var totalCustomers := |customerOrderCounts.keys|;
    var repeatCustomers := CountRepeats(customerOrderCounts, orders, lower);
    var rate := if totalCustomers > 0 then Round(1000 * repeatCustomers, totalCustomers) else 0;
    var average := if |orders| > 0 then Round(totalRevenue, |orders|) else 0;
    var rows := Map(cityStats.keys, CityRowOf(cityStats.at));
    assert rows == CityTable(orders);
    r := CustomerInsights(rate, average, totalCustomers, repeatCustomers, Take(Sort(rows, CityRank), 15));
  }

  function RowOrders(row: CityRow): int {
    row.stats.orderCount
  }

  function RowAmount(row: CityRow): int {
    row.stats.revenue
  }

  lemma {:induction false} CitySums(keys: seq<string>, orders: seq<Order>)
    ensures Sum(Map(keys, CityOf(orders)), RowOrders) == SumByKey(keys, orders, City, One)
    ensures Sum(Map(keys, CityOf(orders)), RowAmount) == SumByKey(keys, orders, City, Amount)
  {
    hide City;
    if keys != [] {
      CitySums(keys[1..], orders);
      assert Map(keys, CityOf(orders))[1..] == Map(keys[1..], CityOf(orders));
      SumOfOnes(orders, HasKey(keys[0], City));
    }
  }

  /** Before the cut to fifteen, city counts and revenues add up to the orders and their revenue. */
  lemma {:induction false} CitiesConserve(orders: seq<Order>)
    ensures Sum(CityTable(orders), RowOrders) == |orders|
    ensures Sum(CityTable(orders), RowAmount) == Sum(orders, Amount)
  {
    hide KeysOf, City;
    KeysOfMeaning(orders, City);
    CitySums(KeysOf(orders, City), orders);
    GroupingConserves(KeysOf(orders, City), orders, City, One);
    GroupingConserves(KeysOf(orders, City), orders, City, Amount);
    SumOfOnes(orders, HasKey("", City));
  }

  /**
   The at most fifteen cities shown are different, each with its true totals, and sorted by orders, and no city
   left out has more orders than one shown.
   */
  lemma {:induction false} TopCitiesMeaning(orders: seq<Order>)
    ensures var top := Take(Sort(CityTable(orders), CityRank), 15);
      && |top| == (if |KeysOf(orders, City)| <= 15 then |KeysOf(orders, City)| else 15)
      && (forall i, j :: 0 <= i < j < |top| ==> RowOrders(top[i]) >= RowOrders(top[j]))
      && (forall shown <- top :: shown.stats == CityStatsOf(orders, shown.city) && shown in CityTable(orders))
      && (forall i, j :: 0 <= i < j < |top| ==> top[i].city != top[j].city)
      && (forall shown <- top, row <- CityTable(orders) :: row !in top ==> RowOrders(row) <= RowOrders(shown))
  {
    hide KeysOf, City, CityStatsOf, Sort;
    var table := CityTable(orders);
    KeysOfMeaning(orders, City);
    assert forall i :: 0 <= i < |table| ==> table[i].city == KeysOf(orders, City)[i];
    TopOfSorted(table, CityRank, 15);
    var top := Take(Sort(table, CityRank), 15);
    forall shown <- top ensures shown.stats == CityStatsOf(orders, shown.city) {
      assert shown in table;
    }
    forall i, j | 0 <= i < j < |top| ensures top[i].city != top[j].city {
      assert top[i] in top && top[j] in top && top[i] != top[j];
    }
    forall shown <- top, row <- table | row !in top
      ensures RowOrders(row) <= RowOrders(shown)
    {
      assert CityRank(shown) <= CityRank(row);
    }
  }

  lemma {:induction false} RepeatsNeedOrders(keys: seq<string>, orders: seq<Order>, lower: Fold)
    requires forall k <- keys :: Count(orders, HasKey(k, CustomerKeyOf(lower))) >= 1
    ensures |keys| + Count(keys, Repeats(orders, lower)) <= SumByKey(keys, orders, CustomerKeyOf(lower), One)
  {
    hide CustomerKey;
    if keys != [] {
      assert keys[0] in keys && forall k <- keys[1..] :: k in keys;
      RepeatsNeedOrders(keys[1..], orders, lower);
      SumOfOnes(orders, HasKey(keys[0], CustomerKeyOf(lower)));
    }
  }

  /** Every customer has an order and every repeat customer a second one; the rate lies between 0 and 100 percent. */
  lemma {:induction false} CustomersNeedOrders(orders: seq<Order>, lower: Fold)
    ensures RepeatCustomers(orders, lower) <= TotalCustomers(orders, lower)
    ensures TotalCustomers(orders, lower) + RepeatCustomers(orders, lower) <= |orders|
    ensures TotalCustomers(orders, lower) > 0 ==>
      0 <= Round(1000 * RepeatCustomers(orders, lower), TotalCustomers(orders, lower)) <= 1000
  {
    hide KeysOf, CustomerKey, Round, Count, SumByKey, Sum;
    var key := CustomerKeyOf(lower);
    var keys := KeysOf(orders, key);
    KeysOfMeaning(orders, key);
    forall k <- keys ensures Count(orders, HasKey(k, key)) >= 1 {
      var i :| 0 <= i < |orders| && key(orders[i]) == k;
      SomeCounted(orders, HasKey(k, key), i);
    }
    RepeatsNeedOrders(keys, orders, lower);
    GroupingConserves(keys, orders, key, One);
    SumOfOnes(orders, HasKey("", key));
    CountIsAtMostLength(keys, Repeats(orders, lower));
    if keys != [] {
      RateIsShare(RepeatCustomers(orders, lower), TotalCustomers(orders, lower));
    }
  }

  lemma {:induction false} RateIsShare(part: nat, whole: nat)
    requires part <= whole && whole > 0
    ensures 0 <= Round(1000 * part, whole) <= 1000
  {
    QuotientBetween(2 * (1000 * part) + whole, 2 * whole, 0, 1000);
  }

  lemma {:induction false} SomeCounted<T>(s: seq<T>, keep: T -> bool, i: nat)
    requires i < |s| && keep(s[i])
    ensures Count(s, keep) >= 1
  {
    if i > 0 {
      SomeCounted(s[1..], keep, i - 1);
    }
  }

  // ----- Categories -----

  datatype ProductMeta = ProductMeta(
    barcode: string, categoryId: Option<string>, category: Option<string>, categoryName: Option<string>)

  /** A map built from the products keeps the last one of a barcode. */
  function MetaFor(products: seq<ProductMeta>, barcode: string): Option<ProductMeta> {
    if products == [] then None
    else if products[|products| - 1].barcode == barcode then Some(products[|products| - 1])
    else MetaFor(products[..|products| - 1], barcode)
  }

  function CategoryKey(products: seq<ProductMeta>, item: Item): string {
    var meta := MetaFor(products, item.barcode);
    if meta.None? then "uncategorized"
    else if meta.value.categoryId.Some? then meta.value.categoryId.value
    else if meta.value.category.Some? then meta.value.category.value
    else "uncategorized"
  }

  function CategoryKeyOf(products: seq<ProductMeta>): Item -> string {
    item => CategoryKey(products, item)
  }

  function CategoryName(products: seq<ProductMeta>, item: Item): string {
    var meta := MetaFor(products, item.barcode);
    if meta.None? then "Kategorisiz"
    else if meta.value.categoryName.Some? then meta.value.categoryName.value
    else if meta.value.category.Some? then meta.value.category.value
    else "Kategorisiz"
  }

  function CategoryId(products: seq<ProductMeta>, item: Item): Option<string> {
    var meta := MetaFor(products, item.barcode);
    if meta.None? then None else meta.value.categoryId
  }

  datatype CategoryStats = CategoryStats(categoryId: Option<string>, name: string, revenue: int, orders: nat)

  ghost predicate IsFirst(items: seq<Item>, k: string, products: seq<ProductMeta>, i: int) {
    && 0 <= i < |items| && CategoryKey(products, items[i]) == k
    && forall j :: 0 <= j < i ==> CategoryKey(products, items[j]) != k
  }

  /** A category is named after its first item and adds up its items. */
  ghost predicate IsCategory(entry: CategoryStats, k: string, items: seq<Item>, products: seq<ProductMeta>) {
    && entry.revenue == SumWhere(items, HasKey(k, CategoryKeyOf(products)), Revenue)
    && entry.orders == Count(items, HasKey(k, CategoryKeyOf(products)))
    && exists i :: IsFirst(items, k, products, i)
         && entry.name == CategoryName(products, items[i]) && entry.categoryId == CategoryId(products, items[i])
  }

  ghost predicate TalliesCategories(m: JsMap<string, CategoryStats>, items: seq<Item>, products: seq<ProductMeta>) {
    && m.Valid() && m.keys == KeysOf(items, CategoryKeyOf(products))
    && forall k :: k in m.at ==> IsCategory(m.at[k], k, items, products)
  }

  function AddToCategory(entry: CategoryStats, item: Item): CategoryStats {
    entry.(revenue := entry.revenue + item.quantity * item.unitPrice, orders := entry.orders + 1)
  }

  lemma {:induction false} CategoryGrows(
    entry: CategoryStats, k: string, items: seq<Item>, item: Item, products: seq<ProductMeta>)
    requires IsCategory(entry, k, items, products)
    ensures var entry' := if CategoryKey(products, item) == k then AddToCategory(entry, item) else entry;
      IsCategory(entry', k, items + [item], products)
  {
    hide CategoryKey, CategoryName, CategoryId;
    CountAppend(items, [item], HasKey(k, CategoryKeyOf(products)));
    SumWhereAppend(items, [item], HasKey(k, CategoryKeyOf(products)), Revenue);
    var i :| IsFirst(items, k, products, i)
      && entry.name == CategoryName(products, items[i]) && entry.categoryId == CategoryId(products, items[i]);
    assert IsFirst(items + [item], k, products, i) && (items + [item])[i] == items[i];
  }

  lemma {:induction false} CategoryStarts(items: seq<Item>, item: Item, products: seq<ProductMeta>)
    requires CategoryKey(products, item) !in KeysOf(items, CategoryKeyOf(products))
    ensures var entry := CategoryStats(CategoryId(products, item), CategoryName(products, item), 0, 0);
      IsCategory(AddToCategory(entry, item), CategoryKey(products, item), items + [item], products)
  {
    hide CategoryKey, CategoryName, CategoryId, KeysOf;
    var k, key := CategoryKey(products, item), CategoryKeyOf(products);
    KeysOfMeaning(items, key);
    forall i | 0 <= i < |items| ensures CategoryKey(products, items[i]) != k && !HasKey(k, key)(items[i]) {
      assert key(items[i]) in KeysOf(items, key);
    }
    NoneCounted(items, HasKey(k, key));
    NoneSummed(items, HasKey(k, key), Revenue);
    CountAppend(items, [item], HasKey(k, key));
    SumWhereAppend(items, [item], HasKey(k, key), Revenue);
    assert IsFirst(items + [item], k, products, |items|);
  }

  lemma {:induction false} CategorySnoc(
    m: JsMap<string, CategoryStats>, items: seq<Item>, item: Item, products: seq<ProductMeta>)
    requires TalliesCategories(m, items, products)
    ensures var k := CategoryKey(products, item);
      var entry := if k in m.at then m.at[k]
                   else CategoryStats(CategoryId(products, item), CategoryName(products, item), 0, 0);
      TalliesCategories(m.Set(k, AddToCategory(entry, item)), items + [item], products)
  {
    hide KeysOf, CategoryKey, CategoryName, CategoryId, IsCategory, AddToCategory;
    KeysOfSnoc(items, item, CategoryKeyOf(products));
    forall k | k in m.at {
      CategoryGrows(m.at[k], k, items, item, products);
    }
    if CategoryKey(products, item) !in m.keys {
      CategoryStarts(items, item, products);
    }
  }

  method FetchCategoryStats(items: seq<Item>, products: seq<ProductMeta>) returns (stats: JsMap<string, CategoryStats>)
    ensures TalliesCategories(stats, items, products)
  {
    hide CategoryKey, CategoryName, CategoryId, KeysOf, IsCategory;
    stats := Empty();
    NoKeys(items[..0], CategoryKeyOf(products));
    if |items| == 0 {
      assert items == items[..0];
      return;
    }
    for n := 0 to |items|
      invariant TalliesCategories(stats, items[..n], products)
    {
      var item := items[n];
      assert items[..n + 1] == items[..n] + [item];
      CategorySnoc(stats, items[..n], item, products);
      var key := CategoryKey(products, item);
      var entry := if key in stats.at then stats.at[key]
                   else CategoryStats(CategoryId(products, item), CategoryName(products, item), 0, 0);
      stats := stats.Set(
        key, entry.(revenue := entry.revenue + item.quantity * item.unitPrice, orders := entry.orders + 1));
    }
    assert items[..|items|] == items;
  }

  function RevenueAt(m: map<string, CategoryStats>): string -> int {
    k => if k in m then m[k].revenue else 0
  }

  function OrdersAt(m: map<string, CategoryStats>): string -> int {
    k => if k in m then m[k].orders else 0
  }

  /** Category revenues and line counts add up to those of the items, whatever the product table says. */
  lemma {:induction false} CategoriesConserve(
    m: JsMap<string, CategoryStats>, items: seq<Item>, products: seq<ProductMeta>)
    requires TalliesCategories(m, items, products)
    ensures Sum(m.keys, RevenueAt(m.at)) == Sum(items, Revenue)
    ensures Sum(m.keys, OrdersAt(m.at)) == |items|
  {
    hide KeysOf, CategoryKey;
    var key := CategoryKeyOf(products);
    KeysOfMeaning(items, key);
    CategorySums(m, items, products, m.keys);
    GroupingConserves(m.keys, items, key, Revenue);
    GroupingConserves(m.keys, items, key, One);
    SumOfOnes(items, HasKey("", key));
  }

  lemma {:induction false} CategorySums(
    m: JsMap<string, CategoryStats>, items: seq<Item>, products: seq<ProductMeta>, keys: seq<string>)
    requires TalliesCategories(m, items, products) && forall k <- keys :: k in m.at
    ensures Sum(keys, RevenueAt(m.at)) == SumByKey(keys, items, CategoryKeyOf(products), Revenue)
    ensures Sum(keys, OrdersAt(m.at)) == SumByKey(keys, items, CategoryKeyOf(products), One)
  {
    hide KeysOf, CategoryKey;
    if keys != [] {
      assert keys[0] in keys && forall k <- keys[1..] :: k in keys;
      CategorySums(m, items, products, keys[1..]);
      SumOfOnes(items, HasKey(keys[0], CategoryKeyOf(products)));
    }
  }

  // ----- Customers, cities and categories, field by field -----

  /** Two orders are of one customer when they share a phone, or when neither has one and their names agree. */
  lemma {:induction false} SameCustomerOnFields(a: Order, b: Order, lower: Fold)
    ensures var phoneOf := (o: Order) => if o.customerPhone.Some? then Trim(o.customerPhone.value) else "";
      CustomerKey(a, lower) == CustomerKey(b, lower) <==>
        if phoneOf(a) != "" then phoneOf(a) == phoneOf(b)
        else phoneOf(b) == "" && lower(Trim(a.customerName)) == lower(Trim(b.customerName))
  {
    hide Trim;
    var x, y := CustomerKey(a, lower), CustomerKey(b, lower);
    assert x[0] == 't' ==> x[4..] == (if a.customerPhone.Some? then Trim(a.customerPhone.value) else "");
    assert y[0] == 't' ==> y[4..] == (if b.customerPhone.Some? then Trim(b.customerPhone.value) else "");
    assert x[0] == 'n' ==> x[5..] == lower(Trim(a.customerName));
    assert y[0] == 'n' ==> y[5..] == lower(Trim(b.customerName));
  }

  /** The customers of the orders, and those found at two different places of the list. */
  ghost function AllCustomers(orders: seq<Order>, lower: Fold): set<string> {
    set i | 0 <= i < |orders| :: CustomerKey(orders[i], lower)
  }

  ghost function ReturningCustomers(orders: seq<Order>, lower: Fold): set<string> {
    set i, j | 0 <= i < j < |orders| && CustomerKey(orders[i], lower) == CustomerKey(orders[j], lower)
      :: CustomerKey(orders[i], lower)
  }

  lemma {:induction false} KeysAreCustomers(orders: seq<Order>, lower: Fold)
    ensures Chosen(KeysOf(orders, CustomerKeyOf(lower)), _ => true) == AllCustomers(orders, lower)
  {
    hide CustomerKey, KeysOf;
    var key := CustomerKeyOf(lower);
    var keys := KeysOf(orders, key);
    KeysOfMeaning(orders, key);
    forall k ensures k in keys <==> k in AllCustomers(orders, lower) {
      if k in keys {
        var i :| 0 <= i < |orders| && key(orders[i]) == k;
        assert CustomerKey(orders[i], lower) in AllCustomers(orders, lower);
      }
      if i :| 0 <= i < |orders| && CustomerKey(orders[i], lower) == k {
        assert key(orders[i]) in keys;
      }
    }
  }

  lemma {:induction false} RepeatsAreReturning(orders: seq<Order>, lower: Fold)
    ensures Chosen(KeysOf(orders, CustomerKeyOf(lower)), Repeats(orders, lower)) == ReturningCustomers(orders, lower)
  {
    hide CustomerKey, KeysOf, Count;
    var key, returning := CustomerKeyOf(lower), ReturningCustomers(orders, lower);
    KeysOfMeaning(orders, key);
    forall k ensures k in KeysOf(orders, key) && Repeats(orders, lower)(k) <==> k in returning {
      CountsTwo(orders, HasKey(k, key));
      if i, j :| 0 <= i < j < |orders| && HasKey(k, key)(orders[i]) && HasKey(k, key)(orders[j]) {
        assert CustomerKey(orders[i], lower) in returning && key(orders[i]) in KeysOf(orders, key);
      }
      if i, j :| 0 <= i < j < |orders| && CustomerKey(orders[i], lower) == CustomerKey(orders[j], lower)
                 && CustomerKey(orders[i], lower) == k {
        assert HasKey(k, key)(orders[i]) && HasKey(k, key)(orders[j]) && key(orders[i]) in KeysOf(orders, key);
      }
    }
  }

  /** Customers are counted once each; a repeat customer is one with orders at two different places of the list. */
  lemma {:induction false} CustomersOnFields(orders: seq<Order>, lower: Fold)
    ensures TotalCustomers(orders, lower) == |AllCustomers(orders, lower)|
    ensures RepeatCustomers(orders, lower) == |ReturningCustomers(orders, lower)|
  {
    hide CustomerKey, KeysOf, Count, Chosen, AllCustomers, ReturningCustomers;
    var keys := KeysOf(orders, CustomerKeyOf(lower));
    KeysOfMeaning(orders, CustomerKeyOf(lower));
    CountIsSize(keys, _ => true);
    AllCounted(keys, _ => true);
    KeysAreCustomers(orders, lower);
    CountIsSize(keys, Repeats(orders, lower));
    RepeatsAreReturning(orders, lower);
  }

  /** A part between commas that is not blank. */
  predicate IsPart(parts: seq<string>, i: int) {
    0 <= i < |parts| && Trim(parts[i]) != ""
  }

  ghost predicate HasTwoParts(parts: seq<string>) {
    exists i, j :: i < j && IsPart(parts, i) && IsPart(parts, j)
  }

  lemma {:induction false} TwoPartsKept(parts: seq<string>)
    ensures |TrimmedParts(parts)| >= 2 <==> HasTwoParts(parts)
  {
    hide Trim, Filter, Count;
    var texts, nonBlank := Map(parts, Trim), (p: string) => |p| > 0;
    CountIsFilterLength(texts, nonBlank);
    CountsTwo(texts, nonBlank);
    if i, j :| i < j && IsPart(parts, i) && IsPart(parts, j) {
      assert nonBlank(texts[i]) && nonBlank(texts[j]);
    }
    if i, j :| 0 <= i < j < |texts| && nonBlank(texts[i]) && nonBlank(texts[j]) {
      assert IsPart(parts, i) && IsPart(parts, j);
    }
  }

  lemma {:induction false} LastPart(parts: seq<string>) returns (i: nat)
    requires |TrimmedParts(parts)| >= 2
    ensures IsPart(parts, i) && TrimmedParts(parts)[|TrimmedParts(parts)| - 1] == Trim(parts[i])
    ensures forall j :: i < j ==> !IsPart(parts, j)
  {
    hide Trim, Filter;
    var texts, nonBlank := Map(parts, Trim), (p: string) => |p| > 0;
    i := LastKept(texts, nonBlank);
    assert nonBlank(texts[i]);
    forall k | i < k ensures !IsPart(parts, k) {
      assert 0 <= k < |parts| ==> !nonBlank(texts[k]);
    }
  }

  /**
   The city is the last part of the address that is not blank, if there are two of them; else the trimmed line, cut
   after forty characters; and a blank address has none.
   */
  lemma {:induction false} CityOnFields(address: Option<string>)
    ensures var line := if address.Some? then Trim(address.value) else "";
            var parts, city := Split(line, ','), ExtractCity(address);
      && (line == "" ==> city == "Belirtilmemiş")
      && (line != "" && HasTwoParts(parts) ==>
            exists i :: IsPart(parts, i) && city == Trim(parts[i]) && forall j :: i < j ==> !IsPart(parts, j))
      && (line != "" && !HasTwoParts(parts) && |line| > 40 ==> city == line[..40] + "…")
      && (line != "" && !HasTwoParts(parts) && |line| <= 40 ==> city == line)
  {
    hide Trim, Split, TrimmedParts, HasTwoParts, IsPart;
    var parts := Split(if address.Some? then Trim(address.value) else "", ',');
    TwoPartsKept(parts);
    if HasTwoParts(parts) {
      var i := LastPart(parts);
    }
  }

  lemma {:induction false} LastKept<T>(s: seq<T>, keep: T -> bool) returns (i: nat)
    requires |Filter(s, keep)| > 0
    ensures i < |s| && keep(s[i]) && Filter(s, keep)[|Filter(s, keep)| - 1] == s[i]
    ensures forall j :: i < j < |s| ==> !keep(s[j])
  {
    var n := |s| - 1;
    assert s == s[..n] + [s[n]];
    FilterAppend(s[..n], [s[n]], keep);
    FilterCons(s[n], [], keep);
    assert [s[n]] + [] == [s[n]];
    if keep(s[n]) {
      i := n;
    } else {
      i := LastKept(s[..n], keep);
    }
  }

  /** Orders and revenue of a city, read off the orders; the whole revenue likewise. */
  lemma {:induction false} CityStatsOnFields(orders: seq<Order>, city: string)
    ensures var mine := (o: Order) => ExtractCity(o.address) == city;
      && CityStatsOf(orders, city) == CityStats(Count(orders, mine), SumWhere(orders, mine, (o: Order) => o.total))
      && Sum(orders, Amount) == Sum(orders, (o: Order) => o.total)
  {
    hide ExtractCity;
    var mine, total := (o: Order) => ExtractCity(o.address) == city, (o: Order) => o.total;
    forall o: Order ensures HasKey(city, City)(o) == mine(o) && Amount(o) == total(o) {
      assert City(o) == ExtractCity(o.address);
    }
    SumWhereAlike(orders, HasKey(city, City), mine, Amount, total);
  }

  lemma {:induction false} LastMeta(products: seq<ProductMeta>, barcode: string, i: nat)
    requires i < |products| && products[i].barcode == barcode
    requires forall j :: i < j < |products| ==> products[j].barcode != barcode
    ensures MetaFor(products, barcode) == Some(products[i])
  {
    if i < |products| - 1 {
      var before := products[..|products| - 1];
      assert forall j :: 0 <= j < |before| ==> before[j] == products[j];
      LastMeta(before, barcode, i);
    }
  }

  lemma {:induction false} NoMeta(products: seq<ProductMeta>, barcode: string)
    requires forall j :: 0 <= j < |products| ==> products[j].barcode != barcode
    ensures MetaFor(products, barcode) == None
  {
    if products != [] {
      var before := products[..|products| - 1];
      assert forall j :: 0 <= j < |before| ==> before[j] == products[j];
      NoMeta(before, barcode);
    }
  }

  /** The last product with the item's barcode gives the category; what it lacks has a fallback. */
  lemma {:induction false} CategoryOnFields(products: seq<ProductMeta>, item: Item, i: nat)
    requires i < |products| && products[i].barcode == item.barcode
    requires forall j :: i < j < |products| ==> products[j].barcode != item.barcode
    ensures var key, name, meta := CategoryKey(products, item), CategoryName(products, item), products[i];
      && CategoryId(products, item) == meta.categoryId
      && (meta.categoryId.Some? ==> key == meta.categoryId.value)
      && (meta.categoryId.None? && meta.category.Some? ==> key == meta.category.value)
      && (meta.categoryId.None? && meta.category.None? ==> key == "uncategorized")
      && (meta.categoryName.Some? ==> name == meta.categoryName.value)
      && (meta.categoryName.None? && meta.category.Some? ==> name == meta.category.value)
      && (meta.categoryName.None? && meta.category.None? ==> name == "Kategorisiz")
  {
    LastMeta(products, item.barcode, i);
  }

  /** An item without a product has no category. */
  lemma {:induction false} UnknownProductOnFields(products: seq<ProductMeta>, item: Item)
    requires forall j :: 0 <= j < |products| ==> products[j].barcode != item.barcode
    ensures CategoryKey(products, item) == "uncategorized" && CategoryName(products, item) == "Kategorisiz"
    ensures CategoryId(products, item) == None
  {
    NoMeta(products, item.barcode);
  }

  /** Revenue and number of lines of a category, read off the items. */
  lemma {:induction false} CategoryTotalsOnFields(
    entry: CategoryStats, k: string, items: seq<Item>, products: seq<ProductMeta>)
    requires IsCategory(entry, k, items, products)
    ensures var mine := (item: Item) => CategoryKey(products, item) == k;
      && entry.revenue == SumWhere(items, mine, (item: Item) => item.quantity * item.unitPrice)
      && entry.orders == Count(items, mine)
  {
    hide CategoryKey;
    var mine := (item: Item) => CategoryKey(products, item) == k;
    var revenue := (item: Item) => item.quantity * item.unitPrice;
    forall item: Item ensures HasKey(k, CategoryKeyOf(products))(item) == mine(item) && Revenue(item) == revenue(item) {
      assert CategoryKeyOf(products)(item) == CategoryKey(products, item);
    }
    SumWhereAlike(items, HasKey(k, CategoryKeyOf(products)), mine, Revenue, revenue);
  }
}
