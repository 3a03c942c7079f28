/** Invoice lines in kuruş: tax rounding, invoice totals, and the lines sent to an ERP. */
module Tax {
  import opened Text
  import opened Division
  import opened Sequences

  datatype Line = Line(name: string, quantity: int, unitPrice: int, taxRate: int, taxAmount: int, total: int)

  function BuildInvoiceLine(name: string, quantity: int, unitPrice: int, taxRate: int): Line {
    var subtotal := unitPrice * quantity;
    var taxAmount := Round(subtotal * taxRate, 100);
    Line(name, quantity, unitPrice, taxRate, taxAmount, subtotal + taxAmount)
  }

  predicate IsBuilt(line: Line) {
    line == BuildInvoiceLine(line.name, line.quantity, line.unitPrice, line.taxRate)
  }

  function Subtotal(line: Line): int {
    line.unitPrice * line.quantity
  }

  function TaxAmount(line: Line): int {
    line.taxAmount
  }

  function LineTotal(line: Line): int {
    line.total
  }

  /** A hundred times the tax before rounding. */
  function ExactTax(line: Line): int {
    line.unitPrice * line.quantity * line.taxRate
  }

  datatype Totals = Totals(subtotal: int, taxAmount: int, totalAmount: int)

  function InvoiceTotals(lines: seq<Line>): Totals {
    Totals(Sum(lines, Subtotal), Sum(lines, TaxAmount), Sum(lines, LineTotal))
  }

  /** The total is subtotal plus tax to the kuruş, and each line adds at most half a kuruş of rounding to the tax. */
  lemma {:induction false} TotalsAddUp(lines: seq<Line>)
    requires forall i :: 0 <= i < |lines| ==> IsBuilt(lines[i])
    ensures var t := InvoiceTotals(lines);
      && t.totalAmount == t.subtotal + t.taxAmount
      && -50 * |lines| <= 100 * t.taxAmount - Sum(lines, ExactTax) <= 50 * |lines|
  {
    hide Round;
    if lines != [] {
      TotalsAddUp(lines[1..]);
      RoundIsNearest(ExactTax(lines[0]), 100);
    }
  }

  /** A row of the stored JSON; a field is present when it has the type the code asks for. */
  datatype JsonRow =
    | NotAnObject
    | Row(name: Option<string>, quantity: Option<int>, unitPrice: Option<int>, taxRate: Option<int>, total: Option<int>)

  datatype ErpLine = ErpLine(description: string, quantity: int, unitPrice: int, taxRate: int, total: int)

  predicate IsLine(row: JsonRow) {
    row.Row? && row.name.Some? && row.quantity.Some? && row.unitPrice.Some?
  }

  function ErpLineOf(row: JsonRow, defaultTaxRate: int): ErpLine
    requires IsLine(row)
  {
    var rate := if row.taxRate.Some? then row.taxRate.value else defaultTaxRate;
    var total := if row.total.Some? then row.total.value
                 else Round(row.quantity.value * row.unitPrice.value * (100 + rate), 100);
    ErpLine(row.name.value, row.quantity.value, row.unitPrice.value, rate, total)
  }

  function ErpLines(rows: seq<JsonRow>, defaultTaxRate: int): seq<ErpLine> {
    if rows == [] then []
    else if IsLine(rows[0]) then [ErpLineOf(rows[0], defaultTaxRate)] + ErpLines(rows[1..], defaultTaxRate)
    else ErpLines(rows[1..], defaultTaxRate)
  }

  lemma {:induction false} ErpLinesAppend(a: seq<JsonRow>, b: seq<JsonRow>, defaultTaxRate: int)
    ensures ErpLines(a + b, defaultTaxRate) == ErpLines(a, defaultTaxRate) + ErpLines(b, defaultTaxRate)
  {
    if a == [] {
      assert a + b == b;
    } else {
      assert (a + b)[1..] == a[1..] + b;
      ErpLinesAppend(a[1..], b, defaultTaxRate);
    }
  }

  /** Rows that are not invoice lines are skipped. */
  method InvoiceItemsToErpLines(rows: seq<JsonRow>, defaultTaxRate: int) returns (lines: seq<ErpLine>)
    ensures lines == ErpLines(rows, defaultTaxRate)
  {
    lines := [];
    for n := 0 to |rows|
      invariant lines == ErpLines(rows[..n], defaultTaxRate)
    {
      var row := rows[n];
      assert rows[..n + 1] == rows[..n] + [row];
      ErpLinesAppend(rows[..n], [row], defaultTaxRate);
      if row.NotAnObject? {
        continue;
      }
      if row.name.None? || row.quantity.None? || row.unitPrice.None? {
        continue;
      }
      var taxRate := if row.taxRate.Some? then row.taxRate.value else defaultTaxRate;
      var total := if row.total.Some? then row.total.value
                   else Round(row.quantity.value * row.unitPrice.value * (100 + taxRate), 100);
      lines := lines + [ErpLine(row.name.value, row.quantity.value, row.unitPrice.value, taxRate, total)];
    }
    assert rows[..|rows|] == rows;
  }

  /** A stored line, with or without its total. */
  predicate Stores(row: JsonRow, line: Line) {
    && IsLine(row) && row.name.value == line.name
    && row.quantity.value == line.quantity && row.unitPrice.value == line.unitPrice
    && row.taxRate == Some(line.taxRate)
    && (row.total.Some? ==> row.total.value == line.total)
  }

  function ErpTotal(line: ErpLine): int {
    line.total
  }

  /** Recomputing a missing total from quantity, price and rate gives the total that was stored. */
  lemma {:induction false} FallbackIsStoredTotal(row: JsonRow, line: Line, defaultTaxRate: int)
    requires IsBuilt(line) && Stores(row, line)
    ensures ErpLineOf(row, defaultTaxRate)
         == ErpLine(line.name, line.quantity, line.unitPrice, line.taxRate, line.total)
  {
    hide Round;
    var subtotal := line.unitPrice * line.quantity;
    RoundShift(subtotal, subtotal * line.taxRate, 100);
    assert line.quantity * line.unitPrice * (100 + line.taxRate) == subtotal * 100 + subtotal * line.taxRate;
  }

  /** The ERP receives one line per stored line, and together they ask for exactly the invoice total. */
  lemma {:induction false} ErpAsksForInvoiceTotal(rows: seq<JsonRow>, lines: seq<Line>, defaultTaxRate: int)
    requires |rows| == |lines|
    requires forall i :: 0 <= i < |rows| ==> IsBuilt(lines[i]) && Stores(rows[i], lines[i])
    ensures |ErpLines(rows, defaultTaxRate)| == |lines|
    ensures Sum(ErpLines(rows, defaultTaxRate), ErpTotal) == InvoiceTotals(lines).totalAmount
  {
    hide ErpLineOf, BuildInvoiceLine;
    if rows != [] {
      ErpAsksForInvoiceTotal(rows[1..], lines[1..], defaultTaxRate);
      FallbackIsStoredTotal(rows[0], lines[0], defaultTaxRate);
      var first, rest := ErpLineOf(rows[0], defaultTaxRate), ErpLines(rows[1..], defaultTaxRate);
      assert ([first] + rest)[1..] == rest;
    }
  }

  /** A stored line keeps what it is built from; its tax is the whole kuruş nearest to the rate of the subtotal. */
  lemma {:induction false} LineOnFields(name: string, quantity: int, unitPrice: int, taxRate: int)
    ensures var line := BuildInvoiceLine(name, quantity, unitPrice, taxRate);
      && line.name == name && line.quantity == quantity && line.unitPrice == unitPrice && line.taxRate == taxRate
      && line.total == quantity * unitPrice + line.taxAmount
      && -100 < 2 * (line.taxAmount * 100 - quantity * unitPrice * taxRate) <= 100
  {
    hide Round;
    RoundIsNearest(unitPrice * quantity * taxRate, 100);
  }

  /**
   A row becomes an ERP line exactly when it has a name, a quantity and a price. The line has the row's rate, or the
   default; the row's total, or the whole kuruş nearest to quantity times price with tax.
   */
  lemma {:induction false} ErpLineOnFields(row: JsonRow, defaultTaxRate: int)
    ensures var kept := row.Row? && row.name.Some? && row.quantity.Some? && row.unitPrice.Some?;
      && (!kept ==> ErpLines([row], defaultTaxRate) == [])
      && (kept ==>
            && |ErpLines([row], defaultTaxRate)| == 1
            && var line := ErpLines([row], defaultTaxRate)[0];
            && line.description == row.name.value && line.quantity == row.quantity.value
            && line.unitPrice == row.unitPrice.value
            && (row.taxRate.Some? ==> line.taxRate == row.taxRate.value)
            && (row.taxRate.None? ==> line.taxRate == defaultTaxRate)
            && (row.total.Some? ==> line.total == row.total.value)
            && (row.total.None? ==>
                  -100 < 2 * (line.total * 100 - line.quantity * line.unitPrice * (100 + line.taxRate)) <= 100))
  {
    hide Round;
    assert [row][1..] == [];
    if IsLine(row) {
      var rate := if row.taxRate.Some? then row.taxRate.value else defaultTaxRate;
      RoundIsNearest(row.quantity.value * row.unitPrice.value * (100 + rate), 100);
    }
  }
}
