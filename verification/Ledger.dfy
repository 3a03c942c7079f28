/**
 Invoices, the account statement built from them, balances, and the two ways of deciding which invoices
 belong to a customer: the clauses sent to the database and the filter applied in memory.
 Money is in kuruş and time in milliseconds.
 */
module Ledger {
  import opened Text
  import opened Sequences

  datatype Status = Draft | Sent | Overdue | Paid | Cancelled

  datatype Invoice = Invoice(
    id: string,
    organizationId: string,
    invoiceNumber: string,
    customerName: string,
    customerEmail: Option<string>,
    customerPhone: Option<string>,
    total: int,
    currency: string,
    status: Status,
    createdAt: int,
    dueDate: Option<int>,
    paidAt: Option<int>,
    paymentMethod: Option<string>,
    deleted: bool)

  predicate IsOpen(inv: Invoice) {
    inv.status == Draft || inv.status == Sent || inv.status == Overdue
  }

  predicate IsPaid(inv: Invoice) {
    inv.status == Paid
  }

  predicate IsLiveStatus(inv: Invoice) {
    inv.status != Cancelled
  }

  function Total(inv: Invoice): int {
    inv.total
  }

  // ----- Ledger entries -----

  datatype EntryKind = InvoiceEntry | PaymentEntry

  datatype LedgerEntry = LedgerEntry(
    id: string, date: int, kind: EntryKind, description: string, debit: int, credit: int,
    referenceId: string, status: Status)

  function Debit(e: LedgerEntry): int {
    e.debit
  }

  function Credit(e: LedgerEntry): int {
    e.credit
  }

  const PAYMENT_METHOD_LABELS: map<string, string> := map[
    "BANK_TRANSFER" := "Banka havalesi",
    "CASH" := "Nakit",
    "CARD" := "Kredi / banka kartı",
    "CHECK" := "Çek",
    "OTHER" := "Diğer"
  ]

  function PaymentMethodLabel(paymentMethod: Option<string>): string {
    if paymentMethod.None? then ""
    else if paymentMethod.value in PAYMENT_METHOD_LABELS then PAYMENT_METHOD_LABELS[paymentMethod.value]
    else paymentMethod.value
  }

  function PaymentDescription(inv: Invoice): string {
    var methodLabel := PaymentMethodLabel(inv.paymentMethod);
    inv.invoiceNumber + " — Tahsilat" + if methodLabel != "" then " (" + methodLabel + ")" else ""
  }

  function InvoiceToLedgerEntries(inv: Invoice): seq<LedgerEntry> {
    var issued := LedgerEntry(
      "ledger-invoice-" + inv.id, inv.createdAt, InvoiceEntry, inv.invoiceNumber + " — " + inv.customerName,
      inv.total, 0, inv.id, inv.status);
    if inv.status == Paid then
      var date := if inv.paidAt.Some? then inv.paidAt.value else inv.createdAt;
      var payment := LedgerEntry(
        "ledger-payment-" + inv.id, date, PaymentEntry, PaymentDescription(inv), 0, inv.total, inv.id, inv.status);
      [issued, payment]
    else
      [issued]
  }

  function AllEntries(invoices: seq<Invoice>): seq<LedgerEntry> {
    if invoices == [] then [] else InvoiceToLedgerEntries(invoices[0]) + AllEntries(invoices[1..])
  }

  /** Rank of an entry when the newest comes first. */
  function NewerEntry(e: LedgerEntry): int {
    -e.date
  }

  function BuildLedgerFromInvoices(invoices: seq<Invoice>): seq<LedgerEntry> {
    Sort(AllEntries(Filter(invoices, IsLiveStatus)), NewerEntry)
  }

  lemma PaymentLabels(other: string)
    requires other !in {"BANK_TRANSFER", "CASH", "CARD", "CHECK", "OTHER"}
    ensures PaymentMethodLabel(None) == "" && PaymentMethodLabel(Some(other)) == other
    ensures PaymentMethodLabel(Some("BANK_TRANSFER")) == "Banka havalesi" && PaymentMethodLabel(Some("CASH")) == "Nakit"
    ensures PaymentMethodLabel(Some("CARD")) == "Kredi / banka kartı" && PaymentMethodLabel(Some("CHECK")) == "Çek"
    ensures PaymentMethodLabel(Some("OTHER")) == "Diğer"
  {
  }

  /**
   A paid invoice gives a debit at its creation and a credit when it was paid, or at its creation when the day is
   not known; any other invoice gives the debit alone. Both name the invoice.
   */
  lemma {:induction false} EntriesOnFields(inv: Invoice)
    ensures var entries := InvoiceToLedgerEntries(inv);
      && |entries| == (if inv.status == Paid then 2 else 1)
      && entries[0].kind == InvoiceEntry && entries[0].date == inv.createdAt
      && entries[0].debit == inv.total && entries[0].credit == 0
      && entries[0].id == "ledger-invoice-" + inv.id
      && entries[0].description == inv.invoiceNumber + " — " + inv.customerName
      && (forall e <- entries :: e.referenceId == inv.id && e.status == inv.status)
      && (inv.status == Paid ==>
            && entries[1].kind == PaymentEntry && entries[1].credit == inv.total && entries[1].debit == 0
            && (inv.paidAt.Some? ==> entries[1].date == inv.paidAt.value)
            && (inv.paidAt.None? ==> entries[1].date == inv.createdAt)
            && entries[1].id == "ledger-payment-" + inv.id
            && (PaymentMethodLabel(inv.paymentMethod) == "" ==>
                  entries[1].description == inv.invoiceNumber + " — Tahsilat")
            && (PaymentMethodLabel(inv.paymentMethod) != "" ==>
                  entries[1].description
                    == inv.invoiceNumber + " — Tahsilat" + (" (" + PaymentMethodLabel(inv.paymentMethod) + ")")))
  {
    hide PaymentMethodLabel;
    var text := inv.invoiceNumber + " — Tahsilat";
    assert text + "" == text;
  }

  // ----- Balances -----

  /** What the open invoices still ask for. */
  function Receivable(invoices: seq<Invoice>): int {
    SumWhere(invoices, IsOpen, Total)
  }

  /** What the paid invoices brought in. */
  function Collected(invoices: seq<Invoice>): int {
    SumWhere(invoices, IsPaid, Total)
  }

  datatype Balance = Balance(receivable: int, collected: int, netBalance: int, currency: string)

  method ComputeBalanceFromInvoices(invoices: seq<Invoice>, currency: string) returns (balance: Balance)
    ensures balance.receivable == Receivable(invoices) && balance.collected == Collected(invoices)
    ensures balance.netBalance == balance.receivable - balance.collected && balance.currency == currency
  {
    var receivable, collected := 0, 0;
    for i := 0 to |invoices|
      invariant receivable == Receivable(invoices[..i]) && collected == Collected(invoices[..i])
    {
      var inv := invoices[i];
      assert invoices[..i + 1] == invoices[..i] + [inv];
      SumWhereAppend(invoices[..i], [inv], IsOpen, Total);
      SumWhereAppend(invoices[..i], [inv], IsPaid, Total);
      if inv.status == Cancelled {
        continue;
      }
      if inv.status == Paid {
        collected := collected + inv.total;
      } else if IsOpen(inv) {
        receivable := receivable + inv.total;
      }
    }
    assert invoices[..|invoices|] == invoices;
    balance := Balance(receivable, collected, receivable - collected, currency);
  }

  lemma {:induction false} EntriesOfOne(inv: Invoice)
    ensures Sum(InvoiceToLedgerEntries(inv), Credit) == if IsPaid(inv) then inv.total else 0
    ensures Sum(InvoiceToLedgerEntries(inv), Debit) == inv.total
  {
    var entries := InvoiceToLedgerEntries(inv);
    if IsPaid(inv) {
      assert entries[1..] == [entries[1]];
      SumAppend([entries[0]], [entries[1]], Credit);
      SumAppend([entries[0]], [entries[1]], Debit);
      assert entries == [entries[0]] + [entries[1]];
    } else {
      assert entries[1..] == [];
    }
  }

  lemma {:induction false} AllEntriesCons(inv: Invoice, rest: seq<Invoice>)
    ensures AllEntries([inv] + rest) == InvoiceToLedgerEntries(inv) + AllEntries(rest)
  {
    assert ([inv] + rest)[1..] == rest;
  }

  lemma {:induction false} EntryTotals(invoices: seq<Invoice>)
    ensures Sum(AllEntries(Filter(invoices, IsLiveStatus)), Credit) == Collected(invoices)
    ensures Sum(AllEntries(Filter(invoices, IsLiveStatus)), Debit) == Receivable(invoices) + Collected(invoices)
  {
    if invoices != [] {
      var inv, rest := invoices[0], Filter(invoices[1..], IsLiveStatus);
      EntryTotals(invoices[1..]);
      if IsLiveStatus(inv) {
        AllEntriesCons(inv, rest);
        EntriesOfOne(inv);
        SumAppend(InvoiceToLedgerEntries(inv), AllEntries(rest), Credit);
        SumAppend(InvoiceToLedgerEntries(inv), AllEntries(rest), Debit);
      }
    }
  }

  function IsDated(date: int): LedgerEntry -> bool {
    (e: LedgerEntry) => e.date == date
  }

  /**
   The statement's columns add up to the balance, and it lists every entry, newest first; entries of one date keep
   the order of their invoices.
   */
  lemma {:induction false} LedgerAgreesWithBalance(invoices: seq<Invoice>)
    ensures Sum(BuildLedgerFromInvoices(invoices), Credit) == Collected(invoices)
    ensures Sum(BuildLedgerFromInvoices(invoices), Debit) == Receivable(invoices) + Collected(invoices)
    ensures multiset(BuildLedgerFromInvoices(invoices)) == multiset(AllEntries(Filter(invoices, IsLiveStatus)))
    ensures forall i, j :: 0 <= i < j < |BuildLedgerFromInvoices(invoices)| ==>
      BuildLedgerFromInvoices(invoices)[i].date >= BuildLedgerFromInvoices(invoices)[j].date
    ensures forall date :: Filter(BuildLedgerFromInvoices(invoices), IsDated(date))
                        == Filter(AllEntries(Filter(invoices, IsLiveStatus)), IsDated(date))
  {
    var entries := AllEntries(Filter(invoices, IsLiveStatus));
    EntryTotals(invoices);
    SortSums(entries, NewerEntry, Credit);
    SortSums(entries, NewerEntry, Debit);
    SortSorts(entries, NewerEntry);
    hide Sort, Filter, AllEntries, Sum, InvoiceToLedgerEntries;
    forall date ensures Filter(Sort(entries, NewerEntry), IsDated(date)) == Filter(entries, IsDated(date)) {
      SortIsStable(entries, -date, NewerEntry);
      FilterAlike(entries, IsDated(date), WithRank(-date, NewerEntry));
      FilterAlike(Sort(entries, NewerEntry), IsDated(date), WithRank(-date, NewerEntry));
    }
  }

  /** An entry is in the statement exactly when it is one of the entries of a live invoice. */
  lemma {:induction false} LedgerMembers(invoices: seq<Invoice>, e: LedgerEntry)
    ensures e in BuildLedgerFromInvoices(invoices)
       <==> exists inv <- invoices :: IsLiveStatus(inv) && e in InvoiceToLedgerEntries(inv)
  {
    var live := Filter(invoices, IsLiveStatus);
    SortSorts(AllEntries(live), NewerEntry);
    EntryMembers(live, e);
    FilterMembers(invoices, IsLiveStatus);
  }

  lemma {:induction false} EntryMembers(invoices: seq<Invoice>, e: LedgerEntry)
    ensures e in AllEntries(invoices) <==> exists inv <- invoices :: e in InvoiceToLedgerEntries(inv)
  {
    if invoices != [] {
      EntryMembers(invoices[1..], e);
      assert invoices == [invoices[0]] + invoices[1..];
    }
  }

  // ----- Which invoices belong to a customer -----

  datatype Customer = Customer(id: string, name: string, email: Option<string>, phone: Option<string>)

  datatype Clause = NameEquals(text: string) | EmailEquals(text: string) | PhoneEquals(text: string)

  function TrimOption(s: Option<string>): string {
    if s.Some? then Trim(s.value) else ""
  }

  /** The database clauses for one customer: a blank name, e-mail or phone gives none. */
  function MatchClauses(customer: Customer): seq<Clause> {
    (if Trim(customer.name) != "" then [NameEquals(Trim(customer.name))] else []) +
    (if TrimOption(customer.email) != "" then [EmailEquals(TrimOption(customer.email))] else []) +
    (if TrimOption(customer.phone) != "" then [PhoneEquals(TrimOption(customer.phone))] else [])
  }

  method BuildInvoiceMatchOrClauses(customer: Customer) returns (clauses: seq<Clause>)
    ensures clauses == MatchClauses(customer)
  {
    clauses := [];
    var trimmedName := Trim(customer.name);
    if |trimmedName| > 0 {
      clauses := clauses + [NameEquals(trimmedName)];
    }
    var trimmedEmail := TrimOption(customer.email);
    if trimmedEmail != "" {
      clauses := clauses + [EmailEquals(trimmedEmail)];
    }
    var trimmedPhone := TrimOption(customer.phone);
    if trimmedPhone != "" {
      clauses := clauses + [PhoneEquals(trimmedPhone)];
    }
  }

  predicate ClauseHolds(clause: Clause, inv: Invoice, lower: Fold) {
    match clause
    case NameEquals(text) => lower(inv.customerName) == lower(text)
    case EmailEquals(text) => inv.customerEmail.Some? && lower(inv.customerEmail.value) == lower(text)
    case PhoneEquals(text) => inv.customerPhone == Some(text)
  }

  predicate Fetched(customer: Customer, inv: Invoice, lower: Fold) {
    exists clause <- MatchClauses(customer) :: ClauseHolds(clause, inv, lower)
  }

  predicate BothSame(a: Option<string>, b: Option<string>, f: Fold) {
    a.Some? && b.Some? && a.value != "" && b.value != "" && f(a.value) == f(b.value)
  }

  function Same(s: string): string {
    s
  }

  predicate BelongsTo(customer: Customer, inv: Invoice, lower: Fold) {
    || lower(Trim(inv.customerName)) == lower(Trim(customer.name))
    || BothSame(customer.email, inv.customerEmail, lower)
    || BothSame(customer.phone, inv.customerPhone, Same)
  }

  function BelongsToCustomer(customer: Customer, lower: Fold): Invoice -> bool {
    inv => BelongsTo(customer, inv, lower)
  }

  function FilterInvoicesForCustomer(customer: Customer, invoices: seq<Invoice>, lower: Fold): seq<Invoice> {
    Filter(invoices, BelongsToCustomer(customer, lower))
  }

  /** Names count trimmed and without case, e-mails without case, phones as they are; blank ones match nothing. */
  lemma {:induction false} BelongsOnFields(c: Customer, inv: Invoice, lower: Fold)
    ensures BelongsTo(c, inv, lower) <==>
      || lower(Trim(c.name)) == lower(Trim(inv.customerName))
      || (exists email, stored :: c.email == Some(email) && inv.customerEmail == Some(stored)
            && |email| > 0 && |stored| > 0 && lower(email) == lower(stored))
      || (c.phone.Some? && c.phone == inv.customerPhone && |c.phone.value| > 0)
  {
    if c.email.Some? && inv.customerEmail.Some? {
      var email, stored := c.email.value, inv.customerEmail.value;
      assert c.email == Some(email) && inv.customerEmail == Some(stored);
    }
  }

  /** The database finds an invoice by the customer's trimmed name, e-mail or phone, the first two without case. */
  lemma {:induction false} FetchedOnFields(c: Customer, inv: Invoice, lower: Fold)
    ensures Fetched(c, inv, lower) <==>
      || (Trim(c.name) != "" && lower(inv.customerName) == lower(Trim(c.name)))
      || (c.email.Some? && inv.customerEmail.Some? && Trim(c.email.value) != ""
          && lower(inv.customerEmail.value) == lower(Trim(c.email.value)))
      || (c.phone.Some? && inv.customerPhone.Some? && Trim(c.phone.value) != ""
          && inv.customerPhone.value == Trim(c.phone.value))
  {
    hide Trim;
    var clauses := MatchClauses(c);
    assert Trim(c.name) != "" ==> NameEquals(Trim(c.name)) in clauses;
    assert TrimOption(c.email) != "" ==> EmailEquals(TrimOption(c.email)) in clauses;
    assert TrimOption(c.phone) != "" ==> PhoneEquals(TrimOption(c.phone)) in clauses;
  }

  /** Lower-casing neither makes a text blank nor adds or removes white space at its ends. */
  ghost predicate KeepsBlanks(lower: Fold) {
    forall a, b :: lower(a) == lower(b) ==> (a == "" <==> b == "") && (Trimmed(a) <==> Trimmed(b))
  }

  /** An invoice whose customer texts were stored trimmed and whose customer name is not blank. */
  predicate StoredTrimmed(inv: Invoice) {
    && inv.customerName != "" && Trimmed(inv.customerName)
    && (inv.customerEmail.Some? ==> Trimmed(inv.customerEmail.value))
    && (inv.customerPhone.Some? ==> Trimmed(inv.customerPhone.value))
  }

  lemma {:induction false} TrimmedInvoicesAreFetched(customer: Customer, inv: Invoice, lower: Fold)
    requires KeepsBlanks(lower) && StoredTrimmed(inv) && BelongsTo(customer, inv, lower)
    ensures Fetched(customer, inv, lower)
  {
    TrimIsTrimmed(inv.customerName);
    TrimIsTrimmed(customer.name);
    var clauses := MatchClauses(customer);
    if lower(Trim(inv.customerName)) == lower(Trim(customer.name)) {
      assert Trim(customer.name) != "";
      assert clauses[0] == NameEquals(Trim(customer.name)) && ClauseHolds(clauses[0], inv, lower);
    } else if BothSame(customer.email, inv.customerEmail, lower) {
      TrimIsTrimmed(customer.email.value);
      assert EmailEquals(customer.email.value) in clauses;
    } else {
      TrimIsTrimmed(customer.phone.value);
      assert PhoneEquals(customer.phone.value) in clauses;
    }
  }

  /**
   The database clauses find an invoice for every customer the in-memory filter gives it to, exactly when
   the invoice was stored trimmed with a customer name that is not blank.
   */
  lemma {:induction false} QueryCoversFilter(inv: Invoice, lower: Fold)
    requires KeepsBlanks(lower)
    ensures (forall c: Customer :: BelongsTo(c, inv, lower) ==> Fetched(c, inv, lower)) <==> StoredTrimmed(inv)
  {
    if StoredTrimmed(inv) {
      forall c: Customer | BelongsTo(c, inv, lower) ensures Fetched(c, inv, lower) {
        TrimmedInvoicesAreFetched(c, inv, lower);
      }
    } else {
      var c := MissedCustomer(inv, lower);
      assert BelongsTo(c, inv, lower) && !Fetched(c, inv, lower);
    }
  }

  /** A customer to whom the filter gives an untrimmed invoice although no clause of the customer finds it. */
  lemma {:induction false} MissedCustomer(inv: Invoice, lower: Fold) returns (c: Customer)
    requires KeepsBlanks(lower) && !StoredTrimmed(inv)
    ensures BelongsTo(c, inv, lower) && !Fetched(c, inv, lower)
  {
    TrimIsTrimmed(inv.customerName);
    if inv.customerName == "" || !Trimmed(inv.customerName) {
      c := Customer("", inv.customerName, None, None);
    } else if inv.customerEmail.Some? && !Trimmed(inv.customerEmail.value) {
      TrimIsTrimmed(inv.customerEmail.value);
      c := Customer("", "", inv.customerEmail, None);
    } else {
      TrimIsTrimmed(inv.customerPhone.value);
      c := Customer("", "", None, inv.customerPhone);
    }
  }

  // ----- The query -----

  /** Rank of an invoice when the newest comes first. */
  function NewerInvoice(inv: Invoice): int {
    -inv.createdAt
  }

  predicate IsLiveOf(inv: Invoice, organizationId: string) {
    inv.organizationId == organizationId && !inv.deleted
  }

  function LiveOf(organizationId: string): Invoice -> bool {
    inv => IsLiveOf(inv, organizationId)
  }

  /** The organisation's invoices that were not deleted, newest first: what an unrestricted query returns. */
  function LiveInvoices(table: seq<Invoice>, organizationId: string): seq<Invoice> {
    Sort(Filter(table, LiveOf(organizationId)), NewerInvoice)
  }

  /** The `where` of the query: live invoices of the organisation that satisfy a clause of some customer. */
  function WhereForCustomers(organizationId: string, customers: seq<Customer>, lower: Fold): Invoice -> bool {
    inv => IsLiveOf(inv, organizationId) && exists c <- customers :: Fetched(c, inv, lower)
  }

  /** At most `take` rows, newest first. Without any clause there is no query, and no row satisfies the `where`. */
  function FetchInvoicesForCustomers(
    table: seq<Invoice>, organizationId: string, customers: seq<Customer>, take: nat, lower: Fold): seq<Invoice>
  {
    Take(Sort(Filter(table, WhereForCustomers(organizationId, customers, lower)), NewerInvoice), take)
  }

  /**
   One query for all customers followed by the in-memory filter gives each of them a newest-first prefix of
   the invoices that filtering every live invoice of the organisation would give, and all of them when the
   query was not cut at `take`.
   */
  lemma {:induction false} FetchOnceFilterEach(
    table: seq<Invoice>, organizationId: string, customers: seq<Customer>, take: nat, lower: Fold, c: Customer)
    requires KeepsBlanks(lower) && c in customers
    requires forall inv <- table :: IsLiveOf(inv, organizationId) ==> StoredTrimmed(inv)
    ensures var answer := FilterInvoicesForCustomer(
              c, FetchInvoicesForCustomers(table, organizationId, customers, take, lower), lower);
            var complete := FilterInvoicesForCustomer(c, LiveInvoices(table, organizationId), lower);
            && answer <= complete
            && (Count(table, WhereForCustomers(organizationId, customers, lower)) <= take ==> answer == complete)
  {
    var where, mine := WhereForCustomers(organizationId, customers, lower), BelongsToCustomer(c, lower);
    var all := LiveInvoices(table, organizationId);
    var found := Filter(all, where);
    FoundAmongLive(table, organizationId, customers, lower);
    SortSorts(Filter(table, LiveOf(organizationId)), NewerInvoice);
    FilterMembers(table, LiveOf(organizationId));
    forall inv | inv in all && mine(inv) ensures where(inv) {
      TrimmedInvoicesAreFetched(c, inv, lower);
    }
    FilterFilter(all, where, mine);
    if |found| > take {
      FilterPrefix(found, take, mine);
    }
  }

  lemma {:induction false} FoundAmongLive(
    table: seq<Invoice>, organizationId: string, customers: seq<Customer>, lower: Fold)
    ensures var where := WhereForCustomers(organizationId, customers, lower);
            && Sort(Filter(table, where), NewerInvoice) == Filter(LiveInvoices(table, organizationId), where)
            && |Filter(LiveInvoices(table, organizationId), where)| == Count(table, where)
  {
    var live, where := LiveOf(organizationId), WhereForCustomers(organizationId, customers, lower);
    FilterFilter(table, live, where);
    SortFilter(Filter(table, live), NewerInvoice, where);
    SortSorts(Filter(table, where), NewerInvoice);
    CountIsFilterLength(table, where);
  }

  /** A live invoice of the organisation that the database finds for some customer. */
  function IsFound(organizationId: string, customers: seq<Customer>, lower: Fold): Invoice -> bool {
    (inv: Invoice) => inv.organizationId == organizationId && !inv.deleted
      && exists c <- customers :: Fetched(c, inv, lower)
  }

  /**
   The query returns at most `take` of the invoices found, all of them if there are no more, the newest first; none
   left out is newer than one returned.
   */
  lemma {:induction false} FetchedAreNewest(
    table: seq<Invoice>, organizationId: string, customers: seq<Customer>, take: nat, lower: Fold)
    ensures var rows := FetchInvoicesForCustomers(table, organizationId, customers, take, lower);
            var found := IsFound(organizationId, customers, lower);
      && |rows| == (if Count(table, found) <= take then Count(table, found) else take)
      && multiset(rows) <= multiset(table) && (forall inv <- rows :: found(inv))
      && (forall i, j :: 0 <= i < j < |rows| ==> rows[i].createdAt >= rows[j].createdAt)
      && (forall inv <- table, row <- rows :: found(inv) && inv !in rows ==> inv.createdAt <= row.createdAt)
  {
    hide Sort, Filter, Fetched, Take, Count;
    var where, found := WhereForCustomers(organizationId, customers, lower), IsFound(organizationId, customers, lower);
    var matches := Filter(table, where);
    var rows := FetchInvoicesForCustomers(table, organizationId, customers, take, lower);
    CutOfSorted(matches, NewerInvoice, take);
    FilterMembers(table, where);
    FilterKeepsAmounts(table, where);
    CountIsFilterLength(table, where);
    CountCongruent(table, where, found);
    forall i, j | 0 <= i < j < |rows| ensures rows[i].createdAt >= rows[j].createdAt {
      assert NewerInvoice(rows[i]) <= NewerInvoice(rows[j]);
    }
    forall inv <- table, row <- rows | found(inv) && inv !in rows ensures inv.createdAt <= row.createdAt {
      assert where(inv) && NewerInvoice(row) <= NewerInvoice(inv);
    }
  }

  /** Filtering for a customer keeps the newest first. */
  lemma {:induction false} CustomerInvoicesAreNewestFirst(
    table: seq<Invoice>, organizationId: string, customers: seq<Customer>, take: nat, lower: Fold, c: Customer)
    ensures var rows := FetchInvoicesForCustomers(table, organizationId, customers, take, lower);
            var mine := FilterInvoicesForCustomer(c, rows, lower);
      && (forall i, j :: 0 <= i < j < |mine| ==> mine[i].createdAt >= mine[j].createdAt)
      && (forall inv :: inv in mine <==> inv in rows && BelongsTo(c, inv, lower))
  {
    hide BelongsTo;
    var rows := FetchInvoicesForCustomers(table, organizationId, customers, take, lower);
    FetchedAreNewest(table, organizationId, customers, take, lower);
    var mine := Filter(rows, BelongsToCustomer(c, lower));
    SortedFilter(rows, NewerInvoice, BelongsToCustomer(c, lower));
    FilterMembers(rows, BelongsToCustomer(c, lower));
    forall i, j | 0 <= i < j < |mine| ensures mine[i].createdAt >= mine[j].createdAt {
      assert NewerInvoice(mine[i]) <= NewerInvoice(mine[j]);
    }
  }
}
