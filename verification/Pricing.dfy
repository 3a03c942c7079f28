/**
 The line items of an invoice entered by hand. Quantities and tax rates are whole numbers, but a unit price may
 be any decimal number: it is given in units of `1 / scale` kuruş, with one scale for the whole invoice.
 */
module Pricing {
  import opened Text
  import opened Division
  import opened Sequences
  import opened Tax

  datatype Request = Request(name: string, quantity: int, price: int, taxRate: Option<int>)

  datatype Priced = Priced(name: string, quantity: int, price: int, taxRate: int, taxAmount: int, total: int)

  function Rate(row: Request, defaultTaxRate: int): int {
    if row.taxRate.Some? then row.taxRate.value else defaultTaxRate
  }

  /** Quantity times price, rounded to a whole kuruş. */
  function RoundedSubtotal(quantity: int, price: int, scale: int): int
    requires scale > 0
  {
    Round(quantity * price, scale)
  }

  function PricedOf(row: Request, defaultTaxRate: int, scale: int): Priced
    requires scale > 0
  {
    var rate := Rate(row, defaultTaxRate);
    var subtotal := RoundedSubtotal(row.quantity, row.price, scale);
    var taxAmount := Round(subtotal * rate, 100);
    Priced(row.name, row.quantity, row.price, rate, taxAmount, subtotal + taxAmount)
  }

  function PricedTax(item: Priced): int {
    item.taxAmount
  }

  function PricedTotal(item: Priced): int {
    item.total
  }

  /** A hundred times `scale` times what the line costs before any rounding. */
  function ExactTotal(item: Priced): int {
    item.quantity * item.price * (100 + item.taxRate)
  }

  method BuildLineItems(rows: seq<Request>, defaultTaxRate: int, scale: int)
    returns (items: seq<Priced>, totals: Totals)
    requires scale > 0
    ensures |items| == |rows|
    ensures forall i :: 0 <= i < |rows| ==> items[i] == PricedOf(rows[i], defaultTaxRate, scale)
    ensures totals.totalAmount == Sum(items, PricedTotal)
    ensures totals.taxAmount == Sum(items, PricedTax)
    ensures totals.totalAmount == totals.subtotal + totals.taxAmount
  {
    var subtotal, taxAmount := 0, 0;
    items := [];
    for n := 0 to |rows|
      invariant |items| == n
      invariant forall i :: 0 <= i < n ==> items[i] == PricedOf(rows[i], defaultTaxRate, scale)
      invariant taxAmount == Sum(items, PricedTax)
      invariant subtotal + taxAmount == Sum(items, PricedTotal)
    {
      var row := rows[n];
      var rate := if row.taxRate.Some? then row.taxRate.value else defaultTaxRate;
      var lineSubtotal := Round(row.quantity * row.price, scale);
      var lineTax := Round(lineSubtotal * rate, 100);
      var item := Priced(row.name, row.quantity, row.price, rate, lineTax, lineSubtotal + lineTax);
      SumSnoc(items, item, PricedTax);
      SumSnoc(items, item, PricedTotal);
      subtotal := subtotal + lineSubtotal;
      taxAmount := taxAmount + lineTax;
      items := items + [item];
    }
    totals := Totals(subtotal, taxAmount, subtotal + taxAmount);
  }

  // ----- How far the total is from the exact one -----

  predicate IsPriced(item: Priced, scale: int) {
    && scale > 0 && 0 <= item.taxRate <= 100
    && item == PricedOf(Request(item.name, item.quantity, item.price, Some(item.taxRate)), 0, scale)
  }

  /** A line's subtotal and its tax are each rounded once. */
  lemma {:induction false} LineNearExact(item: Priced, scale: int)
    requires IsPriced(item, scale)
    ensures var distance := 2 * (100 * scale * item.total - ExactTotal(item));
      -scale * (200 + item.taxRate) <= distance <= scale * (200 + item.taxRate)
  {
    hide Round;
    var product, rate := item.quantity * item.price, item.taxRate;
    var subtotal := Round(product, scale);
    RoundIsNearest(product, scale);
    RoundIsNearest(subtotal * rate, 100);
    var e, f := subtotal * scale - product, item.taxAmount * 100 - subtotal * rate;
    Distribute(scale, subtotal, rate, item.taxAmount, product);
    assert 100 * scale * item.total - ExactTotal(item) == e * (100 + rate) + scale * f;
    Scaled(e, scale, 100 + rate);
    Scaled(f, 100, scale);
  }

  lemma Distribute(scale: int, subtotal: int, rate: int, tax: int, product: int)
    ensures 100 * scale * (subtotal + tax) - product * (100 + rate)
         == (subtotal * scale - product) * (100 + rate) + scale * (tax * 100 - subtotal * rate)
  {
    assert (subtotal * scale - product) * (100 + rate)
        == 100 * (scale * subtotal) + scale * (subtotal * rate) - product * (100 + rate) by {
      assert (subtotal * scale) * rate == scale * (subtotal * rate);
    }
    assert scale * (tax * 100 - subtotal * rate) == 100 * (scale * tax) - scale * (subtotal * rate);
    assert scale * (subtotal + tax) == scale * subtotal + scale * tax;
  }

  lemma Scaled(x: int, bound: int, factor: int)
    requires -bound <= 2 * x <= bound && factor >= 0
    ensures -bound * factor <= 2 * (x * factor) <= bound * factor
  {
    assert (bound - 2 * x) * factor >= 0 && (bound + 2 * x) * factor >= 0;
  }

  function Slack(item: Priced): int {
    200 + item.taxRate
  }

  /**
   The invoice total differs from the exact price with tax by at most half a kuruş per line for the tax and
   half a kuruş, with its tax, per line for the subtotal.
   */
  lemma {:induction false} TotalNearExact(items: seq<Priced>, scale: int)
    requires scale > 0 && forall i :: 0 <= i < |items| ==> IsPriced(items[i], scale)
    ensures var distance := 2 * (100 * scale * Sum(items, PricedTotal) - Sum(items, ExactTotal));
      -scale * Sum(items, Slack) <= distance <= scale * Sum(items, Slack)
  {
    hide IsPriced;
    if items != [] {
      var head, tail := items[0], items[1..];
      LineNearExact(head, scale);
      TotalNearExact(tail, scale);
      assert scale * Sum(items, Slack) == scale * Slack(head) + scale * Sum(tail, Slack);
      assert scale * Sum(items, PricedTotal) == scale * head.total + scale * Sum(tail, PricedTotal);
    }
  }

  // ----- The ERP's own computation -----

  /** What the ERP line asks for when the stored total is missing: one rounding at the end. */
  function FallbackTotal(item: Priced, scale: int): int
    requires scale > 0
  {
    Round(item.quantity * item.price * (100 + item.taxRate), 100 * scale)
  }

  /** The part of the price that rounding the subtotal adds, with its tax, in units of `1 / (100 * scale)` kuruş. */
  function Dropped(item: Priced, scale: int): int
    requires scale > 0
  {
    (RoundedSubtotal(item.quantity, item.price, scale) * scale - item.quantity * item.price) * (100 + item.taxRate)
  }

  /** The stored total as one rounding of the subtotal with tax, in the same units. */
  function SubtotalWithTax(item: Priced, scale: int): int
    requires scale > 0
  {
    RoundedSubtotal(item.quantity, item.price, scale) * scale * (100 + item.taxRate)
  }

  lemma {:induction false} StoredTotalRoundsSubtotal(item: Priced, scale: int)
    requires IsPriced(item, scale)
    ensures item.total == Round(SubtotalWithTax(item, scale), 100 * scale)
  {
    hide Round;
    var subtotal, rate := RoundedSubtotal(item.quantity, item.price, scale), item.taxRate;
    RoundShift(subtotal, subtotal * rate, 100);
    RoundScale(subtotal * 100 + subtotal * rate, 100, scale);
    assert SubtotalWithTax(item, scale) == scale * (subtotal * 100 + subtotal * rate) by {
      assert subtotal * scale * (100 + rate) == scale * (subtotal * (100 + rate));
    }
  }

  /** The dropped part, with its tax, is never more than a kuruş. */
  lemma {:induction false} DroppedWithinOne(item: Priced, scale: int)
    requires IsPriced(item, scale)
    ensures -100 * scale <= Dropped(item, scale) <= 100 * scale
  {
    hide Round, PricedOf;
    var product, factor := item.quantity * item.price, 100 + item.taxRate;
    var e := RoundedSubtotal(item.quantity, item.price, scale) * scale - product;
    RoundIsNearest(product, scale);
    ScaledWithinOne(e, scale, factor);
  }

  lemma ScaledWithinOne(x: int, bound: int, factor: int)
    requires -bound <= 2 * x <= bound && 0 <= factor <= 200
    ensures -100 * bound <= x * factor <= 100 * bound
  {
    Scaled(x, bound, factor);
    assert bound * (200 - factor) >= 0;
  }

  /** The two totals of a line never differ by more than one kuruş. */
  lemma {:induction false} FallbackWithinOne(item: Priced, scale: int)
    requires IsPriced(item, scale)
    ensures -1 <= FallbackTotal(item, scale) - item.total <= 1
  {
    hide Round, PricedOf, Dropped, SubtotalWithTax;
    StoredTotalRoundsSubtotal(item, scale);
    DroppedIsDifference(item, scale);
    DroppedWithinOne(item, scale);
    RoundsWithinOne(item.quantity * item.price * (100 + item.taxRate), SubtotalWithTax(item, scale), 100 * scale);
  }

  /** Numbers that differ by at most one whole have roundings that do. */
  lemma {:induction false} RoundsWithinOne(x: int, z: int, y: int)
    requires y > 0 && -y <= x - z <= y
    ensures -1 <= Round(x, y) - Round(z, y) <= 1
  {
    hide Round;
    RoundAscends(z - y, x, y);
    RoundAscends(x, z + y, y);
    RoundShift(-1, z, y);
    RoundShift(1, z, y);
  }

  lemma DroppedIsDifference(item: Priced, scale: int)
    requires scale > 0
    ensures SubtotalWithTax(item, scale) - item.quantity * item.price * (100 + item.taxRate) == Dropped(item, scale)
  {
  }

  /** Twice a half-kuruş point: an odd multiple of the unit. */
  function HalfPoint(k: int, y: int): int {
    (2 * k + 1) * y
  }

  /** Going from one number to the other passes a point at which rounding jumps, or reaches it from below. */
  ghost predicate CrossesHalf(x: int, z: int, y: int) {
    exists k :: 2 * x < HalfPoint(k, y) <= 2 * z || 2 * z < HalfPoint(k, y) <= 2 * x
  }

  /** They agree exactly when no half-kuruş point lies between exact price and rounded subtotal, both with tax. */
  lemma {:induction false} FallbackAgrees(item: Priced, scale: int)
    requires IsPriced(item, scale)
    ensures FallbackTotal(item, scale) == item.total
       <==> !CrossesHalf(ExactTotal(item), SubtotalWithTax(item, scale), 100 * scale)
  {
    hide Round, SubtotalWithTax, CrossesHalf;
    StoredTotalRoundsSubtotal(item, scale);
    SameRound(ExactTotal(item), SubtotalWithTax(item, scale), 100 * scale);
  }

  /** A price of whole kuruş drops nothing, and the line is the one the seed data would hold. */
  lemma {:induction false} WholePricesAgree(item: Priced, scale: int, kurus: int)
    requires IsPriced(item, scale) && item.price == scale * kurus
    ensures FallbackTotal(item, scale) == item.total
    ensures var line := BuildInvoiceLine(item.name, item.quantity, kurus, item.taxRate);
      item.taxAmount == line.taxAmount && item.total == line.total
  {
    hide Round;
    var q := item.quantity;
    assert q * item.price == (kurus * q) * scale + 0;
    RoundShift(kurus * q, 0, scale);
    RoundOfZero(scale);
    assert Dropped(item, scale) == 0;
    StoredTotalRoundsSubtotal(item, scale);
    DroppedIsDifference(item, scale);
  }

  /** A price of 0.45 kuruş at 20 percent: the stored total is 0, the recomputed one is 1. */
  lemma {:induction false} FallbackMayDiffer(name: string)
    ensures var item := PricedOf(Request(name, 1, 45, None), 20, 100);
      IsPriced(item, 100) && item.total == 0 && FallbackTotal(item, 100) == 1
  {
  }

  // ----- Rounding -----

  lemma {:induction false} RoundScale(x: int, y: int, k: int)
    requires y > 0 && k > 0
    ensures y * k > 0 && Round(k * x, y * k) == Round(x, y)
  {
    hide Round;
    assert y * k >= k;
    var r := Round(x, y);
    RoundIsNearest(x, y);
    var d := r * y - x;
    assert r * (y * k) - k * x == d * k by {
      assert r * (y * k) == (r * y) * k;
    }
    assert (2 * d + y) * k > 0 && (y - 2 * d) * k >= 0;
    assert (2 * d + y) * k == 2 * (d * k) + y * k && (y - 2 * d) * k == y * k - 2 * (d * k);
    OnlyRound(k * x, y * k, r);
  }

  lemma {:induction false} RoundAscends(a: int, b: int, y: int)
    requires y > 0 && a <= b
    ensures Round(a, y) <= Round(b, y)
  {
    var n := 2 * y;
    var low, high := (2 * a + y) / n, (2 * b + y) / n;
    assert 2 * a + y == low * n + (2 * a + y) % n;
    assert 2 * b + y == high * n + (2 * b + y) % n && (high + 1) * n == high * n + n;
    QuotientBetween(2 * b + y, n, low, high);
  }

  lemma RoundOfZero(y: int)
    requires y > 0
    ensures Round(0, y) == 0
  {
    OnlyRound(0, y, 0);
  }

  /** Two numbers round alike exactly when no half point separates them. */
  lemma {:induction false} SameRound(x: int, z: int, y: int)
    requires y > 0
    ensures Round(x, y) == Round(z, y) <==> !CrossesHalf(x, z, y)
  {
    hide Round;
    if x <= z {
      HalfPointsSeparate(x, z, y);
    } else {
      HalfPointsSeparate(z, x, y);
    }
  }

  lemma {:induction false} HalfPointsSeparate(x: int, z: int, y: int)
    requires y > 0 && x <= z
    ensures Round(x, y) < Round(z, y) <==> exists k :: 2 * x < HalfPoint(k, y) <= 2 * z
    ensures Round(x, y) <= Round(z, y)
  {
    hide Round;
    RoundAscends(x, z, y);
    if Round(x, y) < Round(z, y) {
      AroundRounding(x, y, Round(x, y));
      AroundRounding(z, y, Round(x, y));
      assert 2 * x < HalfPoint(Round(x, y), y) <= 2 * z;
    }
    if k :| 2 * x < HalfPoint(k, y) <= 2 * z {
      AroundRounding(x, y, k);
      AroundRounding(z, y, k);
    }
  }

  /** A number rounds to more than `k` exactly from the half point after `k` on. */
  lemma {:induction false} AroundRounding(x: int, y: int, k: int)
    requires y > 0
    ensures HalfPoint(k, y) <= 2 * x <==> k < Round(x, y)
  {
    hide Round, HalfPoint;
    RoundIsNearest(x, y);
    HalfPointIs(k, y);
    Multiples(k, Round(x, y), y);
  }

  lemma HalfPointIs(k: int, y: int)
    ensures HalfPoint(k, y) == 2 * (k * y) + y
  {
  }

  lemma Multiples(k: int, r: int, y: int)
    requires y > 0
    ensures k < r ==> k * y + y <= r * y
    ensures k >= r ==> r * y <= k * y
  {
    if k < r {
      assert (r - k - 1) * y >= 0;
    } else {
      assert (k - r) * y >= 0;
    }
  }

  lemma {:induction false} SumSnoc(items: seq<Priced>, item: Priced, f: Priced -> int)
    ensures Sum(items + [item], f) == Sum(items, f) + f(item)
  {
    SumAppend(items, [item], f);
    assert [item][1..] == [];
  }

  /**
   A priced line keeps the request's name, quantity and price and takes its rate, or the default without one. The
   total without tax is the whole kuruş nearest to quantity times price, the tax the one nearest to its rate.
   */
  lemma {:induction false} PricedOnFields(row: Request, defaultTaxRate: int, scale: int)
    requires scale > 0
    ensures var item := PricedOf(row, defaultTaxRate, scale);
            var subtotal := item.total - item.taxAmount;
      && item.name == row.name && item.quantity == row.quantity && item.price == row.price
      && (row.taxRate.Some? ==> item.taxRate == row.taxRate.value)
      && (row.taxRate.None? ==> item.taxRate == defaultTaxRate)
      && -scale < 2 * (subtotal * scale - row.quantity * row.price) <= scale
      && -100 < 2 * (item.taxAmount * 100 - subtotal * item.taxRate) <= 100
  {
    hide Round;
    RoundIsNearest(row.quantity * row.price, scale);
    RoundIsNearest(Round(row.quantity * row.price, scale) * Rate(row, defaultTaxRate), 100);
  }
}
