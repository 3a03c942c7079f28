/** Statements and ledger summaries of customers, and what their grand total really counts. */
module Customers {
  import opened Text
  import opened Sequences
  import opened OrderedMap
  import opened Ledger

  datatype Statement = Statement(
    customerId: string, customerName: string, balance: Balance, entries: seq<LedgerEntry>, invoices: seq<Invoice>)

  function CurrencyOf(invoices: seq<Invoice>): string {
    if invoices == [] then "TRY" else invoices[0].currency
  }

  function FindCustomer(customers: seq<Customer>, customerId: string): (c: Option<Customer>)
    ensures c.Some? ==> c.value.id == customerId && c.value in customers
    ensures c.None? ==> forall other <- customers :: other.id != customerId
  {
    if customers == [] then None
    else if customers[0].id == customerId then Some(customers[0])
    else FindCustomer(customers[1..], customerId)
  }

  /** What a statement promises: the customer's invoices, and columns that add up to the balance. */
  ghost predicate IsStatementOf(
    s: Statement, customer: Customer, table: seq<Invoice>, organizationId: string, lower: Fold) {
    && s.customerId == customer.id && s.customerName == customer.name
    && s.invoices == FilterInvoicesForCustomer(
         customer, FetchInvoicesForCustomers(table, organizationId, [customer], 500, lower), lower)
    && s.entries == BuildLedgerFromInvoices(s.invoices)
    && s.balance.currency == CurrencyOf(s.invoices)
    && s.balance.collected == Sum(s.entries, Credit)
    && s.balance.receivable == Sum(s.entries, Debit) - Sum(s.entries, Credit)
    && s.balance.netBalance == s.balance.receivable - s.balance.collected
  }

  /** `customers` are the organisation's customers that were not deleted. */
  method GetStatement(
    table: seq<Invoice>, organizationId: string, customers: seq<Customer>, customerId: string, lower: Fold)
    returns (statement: Option<Statement>)
    ensures statement.Some? <==> FindCustomer(customers, customerId).Some?
    ensures statement.Some? ==>
      IsStatementOf(statement.value, FindCustomer(customers, customerId).value, table, organizationId, lower)
  {
    var found := FindCustomer(customers, customerId);
    if found.None? {
      return None;
    }
    var customer := found.value;
    var invoices := FetchInvoicesForCustomers(table, organizationId, [customer], 500, lower);
    var matched := FilterInvoicesForCustomer(customer, invoices, lower);
    var balance := ComputeBalanceFromInvoices(matched, CurrencyOf(matched));
    LedgerAgreesWithBalance(matched);
    return Some(Statement(customer.id, customer.name, balance, BuildLedgerFromInvoices(matched), matched));
  }

  datatype Summary = Summary(debit: int, credit: int, balance: int, currency: string)

  function SummaryOf(customer: Customer, invoices: seq<Invoice>, lower: Fold): Summary {
    var matched := FilterInvoicesForCustomer(customer, invoices, lower);
    var debit, credit := Receivable(matched), Collected(matched);
    Summary(debit, credit, debit - credit, CurrencyOf(matched))
  }

  /** The map holds one summary per customer, in the customers' order. */
  ghost predicate Summarises(
    summaries: JsMap<string, Summary>, customers: seq<Customer>, invoices: seq<Invoice>, lower: Fold)
  {
    && summaries.Valid() && |summaries.keys| == |customers|
    && forall i :: 0 <= i < |customers| ==>
         && summaries.keys[i] == customers[i].id
         && customers[i].id in summaries.at
         && summaries.at[customers[i].id] == SummaryOf(customers[i], invoices, lower)
  }

  method GetLedgerSummaries(customers: seq<Customer>, invoices: seq<Invoice>, lower: Fold)
    returns (summaries: JsMap<string, Summary>)
    requires forall i, j :: 0 <= i < j < |customers| ==> customers[i].id != customers[j].id
    ensures Summarises(summaries, customers, invoices, lower)
  {
    hide FilterInvoicesForCustomer, Summarises, Receivable, Collected, CurrencyOf;
    summaries := Empty();
    NothingToSummarise(customers[..0], invoices, lower);
    for n := 0 to |customers|
      invariant summaries.Valid() && Summarises(summaries, customers[..n], invoices, lower)
    {
      var customer := customers[n];
      var matched := FilterInvoicesForCustomer(customer, invoices, lower);
      var balance := ComputeBalanceFromInvoices(matched, CurrencyOf(matched));
      var summary := Summary(balance.receivable, balance.collected, balance.netBalance, balance.currency);
      assert summary == SummaryOf(customer, invoices, lower);
      AddSummary(summaries, customers[..n], customer, invoices, lower);
      PrefixSnoc(customers, n);
      summaries := summaries.Set(customer.id, summary);
    }
    WholePrefix(customers);
  }

  lemma {:induction false} NothingToSummarise(customers: seq<Customer>, invoices: seq<Invoice>, lower: Fold)
    requires customers == []
    ensures Summarises(Empty(), customers, invoices, lower)
  {
  }

  lemma {:induction false} AddSummary(
    summaries: JsMap<string, Summary>, customers: seq<Customer>, c: Customer, invoices: seq<Invoice>, lower: Fold)
    requires Summarises(summaries, customers, invoices, lower)
    requires forall i :: 0 <= i < |customers| ==> customers[i].id != c.id
    ensures Summarises(summaries.Set(c.id, SummaryOf(c, invoices, lower)), customers + [c], invoices, lower)
  {
    assert c.id !in summaries.keys;
    var more := summaries.Set(c.id, SummaryOf(c, invoices, lower));
    assert more.keys == summaries.keys + [c.id];
  }

  datatype GrandTotal = GrandTotal(
    totalDebit: int, totalCredit: int, netBalance: int, customerCount: nat, currency: string)

  /** Amounts of the selected invoices, summed once for every customer an invoice belongs to. */
  function SumPerCustomer(customers: seq<Customer>, invoices: seq<Invoice>, select: Invoice -> bool, lower: Fold): int {
    if customers == [] then 0 else
      SumWhere(FilterInvoicesForCustomer(customers[0], invoices, lower), select, Total)
      + SumPerCustomer(customers[1..], invoices, select, lower)
  }

  method GetBalanceSummary(table: seq<Invoice>, organizationId: string, customers: seq<Customer>, lower: Fold)
    returns (total: GrandTotal)
    requires forall i, j :: 0 <= i < j < |customers| ==> customers[i].id != customers[j].id
    ensures var invoices := FetchInvoicesForCustomers(table, organizationId, customers, 2000, lower);
      && total.totalDebit == SumPerCustomer(customers, invoices, IsOpen, lower)
      && total.totalCredit == SumPerCustomer(customers, invoices, IsPaid, lower)
      && total.currency == if customers == [] then "TRY" else SummaryOf(customers[0], invoices, lower).currency
    ensures total.netBalance == total.totalDebit - total.totalCredit
    ensures total.customerCount == |customers|
  {
    var invoices := FetchInvoicesForCustomers(table, organizationId, customers, 2000, lower);
    var summaries := GetLedgerSummaries(customers, invoices, lower);
    var debitSum, creditSum := 0, 0;
    for n := 0 to |summaries.keys|
      invariant debitSum == SumPerCustomer(customers[..n], invoices, IsOpen, lower)
      invariant creditSum == SumPerCustomer(customers[..n], invoices, IsPaid, lower)
    {
      SummaryAt(summaries, customers, invoices, lower, n);
      var summary := summaries.at[summaries.keys[n]];
      debitSum := debitSum + summary.debit;
      creditSum := creditSum + summary.credit;
    }
    assert customers[..|customers|] == customers;
    var currency := if |summaries.keys| > 0 then summaries.at[summaries.keys[0]].currency else "TRY";
    total := GrandTotal(debitSum, creditSum, debitSum - creditSum, |summaries.keys|, currency);
  }

  lemma {:induction false} SummaryAt(
    summaries: JsMap<string, Summary>, customers: seq<Customer>, invoices: seq<Invoice>, lower: Fold, n: nat)
    requires Summarises(summaries, customers, invoices, lower) && n < |customers|
    ensures summaries.keys[n] in summaries.at
    ensures var summary := summaries.at[summaries.keys[n]];
      && SumPerCustomer(customers[..n + 1], invoices, IsOpen, lower)
           == SumPerCustomer(customers[..n], invoices, IsOpen, lower) + summary.debit
      && SumPerCustomer(customers[..n + 1], invoices, IsPaid, lower)
           == SumPerCustomer(customers[..n], invoices, IsPaid, lower) + summary.credit
  {
    hide FilterInvoicesForCustomer, SumPerCustomer, SumWhere, CurrencyOf;
    PrefixSnoc(customers, n);
    SumPerCustomerSnoc(customers[..n], customers[n], invoices, IsOpen, lower);
    SumPerCustomerSnoc(customers[..n], customers[n], invoices, IsPaid, lower);
  }

  lemma {:induction false} SumPerCustomerSnoc(
    customers: seq<Customer>, c: Customer, invoices: seq<Invoice>, select: Invoice -> bool, lower: Fold)
    ensures SumPerCustomer(customers + [c], invoices, select, lower)
         == SumPerCustomer(customers, invoices, select, lower)
          + SumWhere(FilterInvoicesForCustomer(c, invoices, lower), select, Total)
  {
    if customers == [] {
      assert (customers + [c])[1..] == [];
    } else {
      assert (customers + [c])[1..] == customers[1..] + [c];
      SumPerCustomerSnoc(customers[1..], c, invoices, select, lower);
    }
  }

  // ----- What the grand total counts -----

  function OwnerOf(inv: Invoice, lower: Fold): Customer -> bool {
    c => BelongsTo(c, inv, lower)
  }

  /** How many of the customers the invoice belongs to. */
  function Owners(customers: seq<Customer>, inv: Invoice, lower: Fold): nat {
    Count(customers, OwnerOf(inv, lower))
  }

  /** Amounts of the selected invoices, each times the number of its owners. */
  function SumTimesOwners(customers: seq<Customer>, invoices: seq<Invoice>, select: Invoice -> bool, lower: Fold): int {
    if invoices == [] then 0 else
      (if select(invoices[0]) then invoices[0].total * Owners(customers, invoices[0], lower) else 0)
      + SumTimesOwners(customers, invoices[1..], select, lower)
  }

  lemma {:induction false} AddOwner(
    c: Customer, customers: seq<Customer>, invoices: seq<Invoice>, select: Invoice -> bool, lower: Fold)
    ensures SumTimesOwners([c] + customers, invoices, select, lower)
         == SumWhere(FilterInvoicesForCustomer(c, invoices, lower), select, Total)
          + SumTimesOwners(customers, invoices, select, lower)
  {
    hide BelongsTo;
    if invoices != [] {
      var inv, tail := invoices[0], invoices[1..];
      AddOwner(c, customers, tail, select, lower);
      assert ([c] + customers)[1..] == customers;
      if BelongsTo(c, inv, lower) {
        assert ([inv] + Filter(tail, BelongsToCustomer(c, lower)))[1..] == Filter(tail, BelongsToCustomer(c, lower));
        assert inv.total * (1 + Owners(customers, inv, lower)) == inv.total + inv.total * Owners(customers, inv, lower);
      }
    }
  }

  /** Summing per customer counts every invoice once for each customer it belongs to. */
  lemma {:induction false} GrandTotalCountsOwners(
    customers: seq<Customer>, invoices: seq<Invoice>, select: Invoice -> bool, lower: Fold)
    ensures SumPerCustomer(customers, invoices, select, lower) == SumTimesOwners(customers, invoices, select, lower)
  {
    if customers == [] {
      NoOwners(invoices, select, lower);
    } else {
      GrandTotalCountsOwners(customers[1..], invoices, select, lower);
      AddOwner(customers[0], customers[1..], invoices, select, lower);
      assert [customers[0]] + customers[1..] == customers;
    }
  }

  lemma {:induction false} NoOwners(invoices: seq<Invoice>, select: Invoice -> bool, lower: Fold)
    ensures SumTimesOwners([], invoices, select, lower) == 0
  {
    if invoices != [] {
      NoOwners(invoices[1..], select, lower);
    }
  }

  function BelongsToSome(customers: seq<Customer>, lower: Fold): Invoice -> bool {
    inv => Owners(customers, inv, lower) > 0
  }

  /** No selected invoice of non-zero amount belongs to two of the customers. */
  predicate NotShared(customers: seq<Customer>, invoices: seq<Invoice>, select: Invoice -> bool, lower: Fold) {
    invoices != [] ==>
      && (select(invoices[0]) && invoices[0].total != 0 ==> Owners(customers, invoices[0], lower) <= 1)
      && NotShared(customers, invoices[1..], select, lower)
  }

  predicate NonNegative(invoices: seq<Invoice>) {
    invoices != [] ==> invoices[0].total >= 0 && NonNegative(invoices[1..])
  }

  lemma {:induction false} TimesOwners(total: int, owners: nat)
    ensures total != 0 ==> owners <= 1 ==> total * owners == if owners > 0 then total else 0
    ensures total >= 0 ==> total * owners >= if owners > 0 then total else 0
    ensures total > 0 && owners > 1 ==> total * owners > total
  {
    if owners > 1 {
      assert total * owners == total + total * (owners - 1);
    }
  }

  /** Each shared invoice of positive amount is counted too often. */
  lemma {:induction false} SharedInvoicesAreOvercounted(
    customers: seq<Customer>, invoices: seq<Invoice>, select: Invoice -> bool, lower: Fold)
    ensures var once := SumWhere(Filter(invoices, BelongsToSome(customers, lower)), select, Total);
            var all := SumTimesOwners(customers, invoices, select, lower);
            && (NotShared(customers, invoices, select, lower) ==> all == once)
            && (NonNegative(invoices) ==> all >= once)
            && (NonNegative(invoices) && !NotShared(customers, invoices, select, lower) ==> all > once)
  {
    if invoices != [] {
      var inv, tail := invoices[0], invoices[1..];
      SharedInvoicesAreOvercounted(customers, tail, select, lower);
      TimesOwners(inv.total, Owners(customers, inv, lower));
      var kept := Filter(tail, BelongsToSome(customers, lower));
      assert ([inv] + kept)[1..] == kept;
    }
  }

  /**
   For invoices of non-negative amounts, the debit (or credit) total over all customers is the balance of
   their invoices taken together exactly when no such invoice belongs to two customers; otherwise it is larger.
   */
  lemma {:induction false} GrandTotalIsUnionBalance(customers: seq<Customer>, invoices: seq<Invoice>, lower: Fold)
    requires NonNegative(invoices)
    ensures var together := Filter(invoices, BelongsToSome(customers, lower));
            var debit := SumPerCustomer(customers, invoices, IsOpen, lower);
            var credit := SumPerCustomer(customers, invoices, IsPaid, lower);
            && debit >= Receivable(together) && credit >= Collected(together)
            && (debit == Receivable(together) <==> NotShared(customers, invoices, IsOpen, lower))
            && (credit == Collected(together) <==> NotShared(customers, invoices, IsPaid, lower))
  {
    GrandTotalCountsOwners(customers, invoices, IsOpen, lower);
    GrandTotalCountsOwners(customers, invoices, IsPaid, lower);
    SharedInvoicesAreOvercounted(customers, invoices, IsOpen, lower);
    SharedInvoicesAreOvercounted(customers, invoices, IsPaid, lower);
  }

  /** One open invoice of two customers of the same name is counted twice, whatever its amount. */
  lemma {:induction false} SharedInvoiceCountsTwice(inv: Invoice, a: Customer, b: Customer, lower: Fold)
    requires IsOpen(inv) && a.name == b.name == inv.customerName
    ensures SumPerCustomer([a, b], [inv], IsOpen, lower) == 2 * inv.total
    ensures Receivable(Filter([inv], BelongsToSome([a, b], lower))) == inv.total
  {
    hide BelongsTo;
    SameNameOwns(a, inv, lower);
    SameNameOwns(b, inv, lower);
    assert [a, b][1..] == [b] && [b][1..] == [] && [inv][1..] == [];
    var owns := OwnerOf(inv, lower);
    assert owns(a) && owns(b);
    assert Count([b][1..], owns) == 0 && Count([b], owns) == 1 && Count([a, b], owns) == 2;
    assert SumTimesOwners([a, b], [inv][1..], IsOpen, lower) == 0;
    GrandTotalCountsOwners([a, b], [inv], IsOpen, lower);
    assert SumTimesOwners([a, b], [], IsOpen, lower) == 0;
    assert Filter([inv], BelongsToSome([a, b], lower)) == [inv];
    assert SumWhere([inv][1..], IsOpen, Total) == 0 && SumWhere([inv], IsOpen, Total) == inv.total;
  }

  lemma SameNameOwns(c: Customer, inv: Invoice, lower: Fold)
    requires c.name == inv.customerName
    ensures BelongsTo(c, inv, lower)
  {
  }

  /** The currency of a statement is that of its newest invoice, and lira without one; its invoices are newest first. */
  lemma {:induction false} StatementOnFields(
    s: Statement, customer: Customer, table: seq<Invoice>, organizationId: string, lower: Fold)
    requires IsStatementOf(s, customer, table, organizationId, lower)
    ensures s.balance.currency == if |s.invoices| == 0 then "TRY" else s.invoices[0].currency
    ensures forall i, j :: 0 <= i < j < |s.invoices| ==> s.invoices[i].createdAt >= s.invoices[j].createdAt
    ensures forall inv :: inv in s.invoices <==>
      && inv in FetchInvoicesForCustomers(table, organizationId, [customer], 500, lower)
      && BelongsTo(customer, inv, lower)
  {
    CustomerInvoicesAreNewestFirst(table, organizationId, [customer], 500, lower, customer);
  }

  /** The debit sums the customer's drafts, issued and overdue invoices, the credit the paid ones. */
  lemma {:induction false} SummaryOnFields(c: Customer, invoices: seq<Invoice>, lower: Fold)
    ensures var s := SummaryOf(c, invoices, lower);
      && s.debit == SumWhere(invoices, (inv: Invoice) => BelongsTo(c, inv, lower)
                      && (inv.status == Draft || inv.status == Sent || inv.status == Overdue),
                    (inv: Invoice) => inv.total)
      && s.credit == SumWhere(invoices, (inv: Invoice) => BelongsTo(c, inv, lower) && inv.status == Paid,
                              (inv: Invoice) => inv.total)
      && s.balance == s.debit - s.credit
  {
    SumOfCustomer(c, invoices, lower, IsOpen, (inv: Invoice) => BelongsTo(c, inv, lower)
      && (inv.status == Draft || inv.status == Sent || inv.status == Overdue), (inv: Invoice) => inv.total);
    SumOfCustomer(c, invoices, lower, IsPaid, (inv: Invoice) => BelongsTo(c, inv, lower) && inv.status == Paid,
                  (inv: Invoice) => inv.total);
  }

  lemma {:induction false} SumOfCustomer(
    c: Customer, invoices: seq<Invoice>, lower: Fold, select: Invoice -> bool, both: Invoice -> bool,
    amount: Invoice -> int)
    requires forall inv :: both(inv) <==> BelongsTo(c, inv, lower) && select(inv)
    requires forall inv :: amount(inv) == inv.total
    ensures SumWhere(FilterInvoicesForCustomer(c, invoices, lower), select, Total) == SumWhere(invoices, both, amount)
  {
    hide BelongsTo;
    if invoices != [] {
      SumOfCustomer(c, invoices[1..], lower, select, both, amount);
      var kept := FilterInvoicesForCustomer(c, invoices[1..], lower);
      assert ([invoices[0]] + kept)[1..] == kept;
    }
  }
}
