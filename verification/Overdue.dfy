/** The overdue sweep: a loop over the organisations that owe it, and the single pass it amounts to. */
module Overdue {
  import opened Sequences
  import opened Ledger
  import opened Invoices

  /** A live issued invoice whose due date has passed. */
  predicate PastDue(inv: Invoice, now: int) {
    inv.status == Sent && inv.dueDate.Some? && inv.dueDate.value < now && !inv.deleted
  }

  function IsPastDue(now: int): Invoice -> bool {
    inv => PastDue(inv, now)
  }

  function IsPastDueOf(organizationId: string, now: int): Invoice -> bool {
    (inv: Invoice) => inv.organizationId == organizationId && PastDue(inv, now)
  }

  function IsPastDueOfSome(organizationIds: seq<string>, now: int): Invoice -> bool {
    (inv: Invoice) => inv.organizationId in organizationIds && PastDue(inv, now)
  }

  /** `updateMany`: the selected rows become overdue. */
  function MarkRows(rows: seq<Invoice>, select: Invoice -> bool): seq<Invoice> {
    seq(|rows|, i requires 0 <= i < |rows| => if select(rows[i]) then rows[i].(status := Ledger.Overdue) else rows[i])
  }

  function DistinctOrganizations(rows: seq<Invoice>): seq<string> {
    if rows == [] then []
    else
      var before := DistinctOrganizations(rows[..|rows| - 1]);
      var id := rows[|rows| - 1].organizationId;
      if id in before then before else before + [id]
  }

  lemma {:induction false} DistinctOrganizationsMeaning(rows: seq<Invoice>)
    ensures Distinct(DistinctOrganizations(rows))
    ensures forall id :: id in DistinctOrganizations(rows) <==> exists inv <- rows :: inv.organizationId == id
  {
    if rows != [] {
      DistinctOrganizationsMeaning(rows[..|rows| - 1]);
      assert rows == rows[..|rows| - 1] + [rows[|rows| - 1]];
    }
  }

  datatype SweepResult = SweepResult(organizationsProcessed: nat, invoicesUpdated: nat)

  /** One `updateMany` per organisation that has an invoice past due. */
  method MarkOverdueSentInvoices(table: InvoiceTable, now: int) returns (result: SweepResult)
    requires table.Valid()
    modifies table
    ensures table.Valid()
    ensures table.rows == MarkRows(old(table.rows), IsPastDue(now))
    ensures result.invoicesUpdated == Count(old(table.rows), IsPastDue(now))
    ensures result.organizationsProcessed == |DistinctOrganizations(Filter(old(table.rows), IsPastDue(now)))|
  {
    hide MarkRows, Count, DistinctOrganizations, Filter, UniqueIds;
    var orgRows := DistinctOrganizations(Filter(table.rows, IsPastDue(now)));
    var invoicesUpdated := 0;
    ghost var start := table.rows;
    DistinctOrganizationsMeaning(Filter(start, IsPastDue(now)));
    NothingSelected(start, IsPastDueOfSome(orgRows[..0], now));
    for n := 0 to |orgRows|
      invariant table.rows == MarkRows(start, IsPastDueOfSome(orgRows[..n], now))
      invariant invoicesUpdated == Count(start, IsPastDueOfSome(orgRows[..n], now))
    {
      var organizationId := orgRows[n];
      var count := Count(table.rows, IsPastDueOf(organizationId, now));
      table.rows := MarkRows(table.rows, IsPastDueOf(organizationId, now));
      invoicesUpdated := invoicesUpdated + count;
      NotYetSwept(orgRows, n);
      OneMoreOrganization(start, orgRows[..n], organizationId, now);
      PrefixSnoc(orgRows, n);
    }
    WholePrefix(orgRows);
    AllOrganizationsCovered(start, now);
    MarkKeepsIds(start, IsPastDue(now));
    result := SweepResult(|orgRows|, invoicesUpdated);
  }

  lemma NotYetSwept(ids: seq<string>, n: nat)
    requires Distinct(ids) && n < |ids|
    ensures ids[n] !in ids[..n]
  {
  }

  lemma MarkKeepsIds(rows: seq<Invoice>, select: Invoice -> bool)
    requires UniqueIds(rows)
    ensures UniqueIds(MarkRows(rows, select))
  {
  }

  lemma {:induction false} NothingSelected(rows: seq<Invoice>, select: Invoice -> bool)
    requires forall i :: 0 <= i < |rows| ==> !select(rows[i])
    ensures MarkRows(rows, select) == rows && Count(rows, select) == 0
  {
    NoneCounted(rows, select);
  }

  /** Sweeping one further organisation after some others is sweeping all of them at once. */
  lemma {:induction false} OneMoreOrganization(rows: seq<Invoice>, done: seq<string>, id: string, now: int)
    requires id !in done
    ensures var swept := MarkRows(rows, IsPastDueOfSome(done, now));
      && MarkRows(swept, IsPastDueOf(id, now)) == MarkRows(rows, IsPastDueOfSome(done + [id], now))
      && Count(rows, IsPastDueOfSome(done + [id], now))
           == Count(rows, IsPastDueOfSome(done, now)) + Count(swept, IsPastDueOf(id, now))
  {
    var swept := MarkRows(rows, IsPastDueOfSome(done, now));
    if rows != [] {
      var tail := rows[1..];
      OneMoreOrganization(tail, done, id, now);
      assert swept[1..] == MarkRows(tail, IsPastDueOfSome(done, now));
    }
  }

  lemma {:induction false} AllOrganizationsCovered(rows: seq<Invoice>, now: int)
    ensures var ids := DistinctOrganizations(Filter(rows, IsPastDue(now)));
      && MarkRows(rows, IsPastDueOfSome(ids, now)) == MarkRows(rows, IsPastDue(now))
      && Count(rows, IsPastDueOfSome(ids, now)) == Count(rows, IsPastDue(now))
  {
    var due := Filter(rows, IsPastDue(now));
    var ids := DistinctOrganizations(due);
    DistinctOrganizationsMeaning(due);
    FilterMembers(rows, IsPastDue(now));
    forall i | 0 <= i < |rows| ensures IsPastDueOfSome(ids, now)(rows[i]) == IsPastDue(now)(rows[i]) {
      if IsPastDue(now)(rows[i]) {
        assert rows[i] in due;
      }
    }
    CountCongruent(rows, IsPastDueOfSome(ids, now), IsPastDue(now));
  }

  /** The organisations counted by the sweep are exactly those owning an invoice past due, each once. */
  lemma {:induction false} OrganizationsOwing(rows: seq<Invoice>, now: int)
    ensures var ids := DistinctOrganizations(Filter(rows, IsPastDue(now)));
      && Distinct(ids)
      && forall id :: id in ids <==> exists inv <- rows :: inv.organizationId == id && PastDue(inv, now)
  {
    DistinctOrganizationsMeaning(Filter(rows, IsPastDue(now)));
    FilterMembers(rows, IsPastDue(now));
  }

  /** After a sweep no live issued invoice is past due, so a second sweep at the same time finds nothing. */
  lemma {:induction false} SweepTwice(rows: seq<Invoice>, now: int)
    ensures var swept := MarkRows(rows, IsPastDue(now));
      && Count(swept, IsPastDue(now)) == 0
      && MarkRows(swept, IsPastDue(now)) == swept
      && DistinctOrganizations(Filter(swept, IsPastDue(now))) == []
  {
    var swept := MarkRows(rows, IsPastDue(now));
    NothingSelected(swept, IsPastDue(now));
    CountIsFilterLength(swept, IsPastDue(now));
  }

  /** The sweep marks exactly the sent, live invoices whose due date is before now, and changes only their status. */
  lemma {:induction false} SweepOnFields(rows: seq<Invoice>, now: int)
    ensures var swept := MarkRows(rows, IsPastDue(now));
      && |swept| == |rows|
      && forall i :: 0 <= i < |rows| ==>
           var inv := rows[i];
           var late := inv.status == Sent && !inv.deleted && inv.dueDate.Some? && now > inv.dueDate.value;
           && (late ==> swept[i] == inv.(status := Status.Overdue))
           && (!late ==> swept[i] == inv)
  {
  }
}
