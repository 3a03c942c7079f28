/** The invoice table and the actions on it: create, issue, mark paid, cancel, and the two bulk actions. */
module Invoices {
  import opened Text
  import opened Sequences
  import opened Ledger

  datatype Failure =
    | NotFound
    | DuplicateId
    | NotADraft(status: Status)
    | AlreadyPaid
    | AlreadyCancelled
    | CancelledIsNotPayable
    | PaidIsNotCancellable
    | IssueFirst

  datatype Action = Issue | MarkPaid(paidOn: Option<int>, paidBy: Option<string>) | Cancel

  const SEVEN_DAYS := 7 * 24 * 60 * 60 * 1000

  /** Why an action is refused in a status, if it is. */
  function Refusal(action: Action, status: Status): Option<Failure> {
    match action
    case Issue => if status != Draft then Some(NotADraft(status)) else None
    case MarkPaid(_, _) =>
      if status == Paid then Some(AlreadyPaid)
      else if status == Cancelled then Some(CancelledIsNotPayable)
      else if status == Draft then Some(IssueFirst)
      else None
    case Cancel =>
      if status == Cancelled then Some(AlreadyCancelled)
      else if status == Paid then Some(PaidIsNotCancellable)
      else None
  }

  /** The invoice after an action that was not refused. */
  function Apply(action: Action, inv: Invoice, now: int): Invoice {
    match action
    case Issue => inv.(status := Sent, dueDate := if inv.dueDate.None? then Some(now + SEVEN_DAYS) else inv.dueDate)
    case MarkPaid(paidOn, paidBy) =>
      inv.(status := Paid, paidAt := if paidOn.Some? then paidOn else Some(now), paymentMethod := paidBy)
    case Cancel => inv.(status := Cancelled)
  }

  predicate IsRow(inv: Invoice, organizationId: string, id: string) {
    inv.id == id && inv.organizationId == organizationId && !inv.deleted
  }

  ghost predicate UniqueIds(rows: seq<Invoice>) {
    forall i, j :: 0 <= i < j < |rows| ==> rows[i].id != rows[j].id
  }

  /** The organisation's live row with this id. */
  function FindRow(rows: seq<Invoice>, organizationId: string, id: string): (r: Option<nat>)
    ensures r.Some? ==> r.value < |rows| && IsRow(rows[r.value], organizationId, id)
    ensures r.None? ==> forall i :: 0 <= i < |rows| ==> !IsRow(rows[i], organizationId, id)
  {
    if rows == [] then None
    else if IsRow(rows[0], organizationId, id) then Some(0)
    else
      var r := FindRow(rows[1..], organizationId, id);
      if r.Some? then Some(r.value + 1)
      else assert forall i :: 1 <= i < |rows| ==> rows[i] == rows[1..][i - 1]; None
  }

  /** One action on the table: the row it works on is changed, or nothing is and the reason is reported. */
  function Act(rows: seq<Invoice>, organizationId: string, id: string, action: Action, now: int)
    : (seq<Invoice>, Option<Failure>)
  {
    var found := FindRow(rows, organizationId, id);
    if found.None? then (rows, Some(NotFound))
    else
      var i := found.value;
      var refusal := Refusal(action, rows[i].status);
      if refusal.Some? then (rows, refusal) else (rows[i := Apply(action, rows[i], now)], None)
  }

  /** The status route: any status replaces the stored one, without a check and without touching dates. */
  function Overwrite(rows: seq<Invoice>, organizationId: string, id: string, status: Status)
    : (seq<Invoice>, Option<Failure>)
  {
    var found := FindRow(rows, organizationId, id);
    if found.None? then (rows, Some(NotFound))
    else (rows[found.value := rows[found.value].(status := status)], None)
  }

  /** A draft as `create` stores it: unpaid, live, due when the caller says. */
  predicate IsFreshDraft(inv: Invoice) {
    inv.status == Draft && inv.paidAt.None? && inv.paymentMethod.None? && !inv.deleted
  }

  /** An invoice for a paid subscription as it is stored: paid, due at the end of the period, without a payment date. */
  predicate IsSubscriptionInvoice(inv: Invoice) {
    && inv.status == Paid && inv.paidAt.None? && inv.paymentMethod.None? && inv.dueDate.Some? && !inv.deleted
    && inv.currency == "TRY"
  }

  datatype BulkError = BulkError(id: string, reason: Failure)

  datatype BulkResult = BulkResult(success: nat, failed: nat, errors: seq<BulkError>)

  function Record(r: BulkResult, id: string, failure: Option<Failure>): BulkResult {
    if failure.None? then r.(success := r.success + 1)
    else r.(failed := r.failed + 1, errors := r.errors + [BulkError(id, failure.value)])
  }

  /** The bulk loop as a function: the actions run one after another, each at its own clock reading. */
  function Bulk(rows: seq<Invoice>, organizationId: string, ids: seq<string>, action: Action, clock: seq<int>)
    : (seq<Invoice>, BulkResult)
    requires |clock| == |ids|
    decreases |ids|
  {
    if ids == [] then (rows, BulkResult(0, 0, []))
    else
      var n := |ids| - 1;
      var (rows', r) := Bulk(rows, organizationId, ids[..n], action, clock[..n]);
      var (last, failure) := Act(rows', organizationId, ids[n], action, clock[n]);
      (last, Record(r, ids[n], failure))
  }

  class InvoiceTable {
    var rows: seq<Invoice>

    ghost predicate Valid()
      reads this
    {
      UniqueIds(rows)
    }

    constructor ()
      ensures Valid() && rows == []
    {
      rows := [];
    }

    method RequireInvoice(organizationId: string, id: string) returns (index: Option<nat>)
      ensures index == FindRow(rows, organizationId, id)
    {
      var i := 0;
      while i < |rows|
        invariant 0 <= i <= |rows|
        invariant var rest := FindRow(rows[i..], organizationId, id);
          FindRow(rows, organizationId, id) == if rest.Some? then Some(rest.value + i) else None
      {
        assert rows[i..][1..] == rows[i + 1..];
        if IsRow(rows[i], organizationId, id) {
          return Some(i);
        }
        i := i + 1;
      }
      return None;
    }

    /** Adds a row; the primary key refuses an id that is already there. */
    method Insert(row: Invoice) returns (failure: Option<Failure>)
      requires Valid()
      modifies this
      ensures Valid()
      ensures failure.Some? <==> exists i :: 0 <= i < |old(rows)| && old(rows)[i].id == row.id
      ensures rows == if failure.Some? then old(rows) else old(rows) + [row]
    {
      for i := 0 to |rows|
        invariant rows == old(rows)
        invariant forall j :: 0 <= j < i ==> rows[j].id != row.id
      {
        if rows[i].id == row.id {
          return Some(DuplicateId);
        }
      }
      rows := rows + [row];
      return None;
    }

    method Create(draft: Invoice) returns (failure: Option<Failure>)
      requires Valid() && IsFreshDraft(draft)
      modifies this
      ensures Valid()
      ensures failure.Some? <==> exists i :: 0 <= i < |old(rows)| && old(rows)[i].id == draft.id
      ensures rows == if failure.Some? then old(rows) else old(rows) + [draft]
    {
      failure := Insert(draft);
    }

    method CreateFromSubscriptionPayment(invoice: Invoice) returns (failure: Option<Failure>)
      requires Valid() && IsSubscriptionInvoice(invoice)
      modifies this
      ensures Valid()
      ensures failure.Some? <==> exists i :: 0 <= i < |old(rows)| && old(rows)[i].id == invoice.id
      ensures rows == if failure.Some? then old(rows) else old(rows) + [invoice]
    {
      failure := Insert(invoice);
    }

    method IssueInvoice(organizationId: string, id: string, now: int) returns (failure: Option<Failure>)
      requires Valid()
      modifies this
      ensures Valid() && (rows, failure) == Act(old(rows), organizationId, id, Issue, now)
    {
      var found := RequireInvoice(organizationId, id);
      if found.None? {
        return Some(NotFound);
      }
      var i := found.value;
      var invoice := rows[i];
      if invoice.status != Draft {
        return Some(NotADraft(invoice.status));
      }
      var data := invoice.(status := Sent);
      if invoice.dueDate.None? {
        data := data.(dueDate := Some(now + SEVEN_DAYS));
      }
      rows := rows[i := data];
      return None;
    }

    method MarkInvoicePaid(organizationId: string, id: string, paidOn: Option<int>, paidBy: Option<string>, now: int)
      returns (failure: Option<Failure>)
      requires Valid()
      modifies this
      ensures Valid() && (rows, failure) == Act(old(rows), organizationId, id, MarkPaid(paidOn, paidBy), now)
    {
      var found := RequireInvoice(organizationId, id);
      if found.None? {
        return Some(NotFound);
      }
      var i := found.value;
      var invoice := rows[i];
      if invoice.status == Paid {
        return Some(AlreadyPaid);
      }
      if invoice.status == Cancelled {
        return Some(CancelledIsNotPayable);
      }
      if invoice.status == Draft {
        return Some(IssueFirst);
      }
      var paidAt := if paidOn.Some? then paidOn.value else now;
      rows := rows[i := invoice.(status := Paid, paidAt := Some(paidAt), paymentMethod := paidBy)];
      return None;
    }

    method UpdateStatus(organizationId: string, id: string, status: Status) returns (failure: Option<Failure>)
      requires Valid()
      modifies this
      ensures Valid() && (rows, failure) == Overwrite(old(rows), organizationId, id, status)
    {
      var found := RequireInvoice(organizationId, id);
      if found.None? {
        return Some(NotFound);
      }
      var i := found.value;
      rows := rows[i := rows[i].(status := status)];
      return None;
    }

    method CancelInvoice(organizationId: string, id: string) returns (failure: Option<Failure>)
      requires Valid()
      modifies this
      ensures Valid() && forall now :: (rows, failure) == Act(old(rows), organizationId, id, Cancel, now)
    {
      var found := RequireInvoice(organizationId, id);
      if found.None? {
        return Some(NotFound);
      }
      var i := found.value;
      if rows[i].status == Cancelled {
        return Some(AlreadyCancelled);
      }
      if rows[i].status == Paid {
        return Some(PaidIsNotCancellable);
      }
      failure := UpdateStatus(organizationId, id, Cancelled);
    }

    method Perform(organizationId: string, id: string, action: Action, now: int) returns (failure: Option<Failure>)
      requires Valid()
      modifies this
      ensures Valid() && (rows, failure) == Act(old(rows), organizationId, id, action, now)
    {
      match action {
        case Issue => failure := IssueInvoice(organizationId, id, now);
        case MarkPaid(paidOn, paidBy) => failure := MarkInvoicePaid(organizationId, id, paidOn, paidBy, now);
        case Cancel => failure := CancelInvoice(organizationId, id);
      }
    }

    /** A failed action is recorded and the loop goes on; `clock` holds the time each action reads. */
    method RunBulkInvoiceAction(organizationId: string, ids: seq<string>, action: Action, clock: seq<int>)
      returns (result: BulkResult)
      requires Valid() && |clock| == |ids|
      modifies this
      ensures Valid() && (rows, result) == Bulk(old(rows), organizationId, ids, action, clock)
    {
      result := BulkResult(0, 0, []);
      for n := 0 to |ids|
        invariant Valid()
        invariant (rows, result) == Bulk(old(rows), organizationId, ids[..n], action, clock[..n])
      {
        assert ids[..n + 1][..n] == ids[..n] && clock[..n + 1][..n] == clock[..n];
        var failure := Perform(organizationId, ids[n], action, clock[n]);
        if failure.None? {
          result := result.(success := result.success + 1);
        } else {
          result := result.(failed := result.failed + 1, errors := result.errors + [BulkError(ids[n], failure.value)]);
        }
      }
      assert ids[..|ids|] == ids && clock[..|ids|] == clock;
    }

    method BulkIssue(organizationId: string, ids: seq<string>, clock: seq<int>) returns (result: BulkResult)
      requires Valid() && |clock| == |ids|
      modifies this
      ensures Valid() && (rows, result) == Bulk(old(rows), organizationId, ids, Issue, clock)
    {
      result := RunBulkInvoiceAction(organizationId, ids, Issue, clock);
    }

    method BulkMarkPaid(organizationId: string, ids: seq<string>, clock: seq<int>) returns (result: BulkResult)
      requires Valid() && |clock| == |ids|
      modifies this
      ensures Valid() && (rows, result) == Bulk(old(rows), organizationId, ids, MarkPaid(None, None), clock)
    {
      result := RunBulkInvoiceAction(organizationId, ids, MarkPaid(None, None), clock);
    }
  }

  // ----- What a bulk action does, whatever the list -----

  /** The action would succeed on the invoice. */
  predicate Eligible(inv: Invoice, organizationId: string, action: Action) {
    inv.organizationId == organizationId && !inv.deleted && Refusal(action, inv.status).None?
  }

  function EligibleIn(organizationId: string, ids: seq<string>, action: Action): Invoice -> bool {
    inv => Eligible(inv, organizationId, action) && inv.id in ids
  }

  function FirstIndex(ids: seq<string>, id: string): (i: nat)
    requires id in ids
    ensures i < |ids| && ids[i] == id && id !in ids[..i]
  {
    if ids[0] == id then 0 else 1 + FirstIndex(ids[1..], id)
  }

  /** The invoice after the bulk action: acted on once, at the first time its id comes up, or left alone. */
  function AfterBulk(inv: Invoice, organizationId: string, ids: seq<string>, action: Action, clock: seq<int>): Invoice
    requires |clock| == |ids|
  {
    if EligibleIn(organizationId, ids, action)(inv)
    then Apply(action, inv, clock[FirstIndex(ids, inv.id)])
    else inv
  }

  lemma ActionsAreNotRepeatable(action: Action, inv: Invoice, now: int)
    requires Refusal(action, inv.status).None?
    ensures Refusal(action, Apply(action, inv, now).status).Some?
    ensures Apply(action, inv, now).id == inv.id
  {
  }

  lemma {:induction false} ActOnRow(
    rows: seq<Invoice>, organizationId: string, id: string, action: Action, now: int, j: nat)
    requires UniqueIds(rows) && j < |rows|
    ensures var (rows', failure) := Act(rows, organizationId, id, action, now);
      && |rows'| == |rows| && UniqueIds(rows')
      && rows'[j] == (if Eligible(rows[j], organizationId, action) && rows[j].id == id
                      then Apply(action, rows[j], now) else rows[j])
      && rows'[j].id == rows[j].id
  {
  }

  /** An action succeeds exactly when some invoice with the id is eligible; otherwise it says what is wrong. */
  lemma {:induction false} ActMeaning(rows: seq<Invoice>, organizationId: string, id: string, action: Action, now: int)
    requires UniqueIds(rows)
    ensures var (rows', failure) := Act(rows, organizationId, id, action, now);
      && (failure.None? <==> exists inv <- rows :: Eligible(inv, organizationId, action) && inv.id == id)
      && (failure.Some? ==> rows' == rows)
      && (failure == Some(NotFound) <==> forall inv <- rows :: !IsRow(inv, organizationId, id))
      && (forall inv <- rows :: IsRow(inv, organizationId, id) ==> failure == Refusal(action, inv.status))
  {
    forall inv <- rows | IsRow(inv, organizationId, id)
      ensures Act(rows, organizationId, id, action, now).1 == Refusal(action, inv.status)
    {
      var i :| 0 <= i < |rows| && rows[i] == inv;
    }
    var found := FindRow(rows, organizationId, id);
    if found.Some? {
      assert rows[found.value] in rows;
    }
  }

  lemma {:induction false} BulkOnRow(
    rows: seq<Invoice>, organizationId: string, ids: seq<string>, action: Action, clock: seq<int>, j: nat)
    requires UniqueIds(rows) && j < |rows| && |clock| == |ids|
    ensures var rows' := Bulk(rows, organizationId, ids, action, clock).0;
      && |rows'| == |rows| && UniqueIds(rows') && rows'[j].id == rows[j].id
      && rows'[j] == AfterBulk(rows[j], organizationId, ids, action, clock)
    decreases |ids|
  {
    if ids != [] {
      var n := |ids| - 1;
      BulkOnRow(rows, organizationId, ids[..n], action, clock[..n], j);
      var rows' := Bulk(rows, organizationId, ids[..n], action, clock[..n]).0;
      ActOnRow(rows', organizationId, ids[n], action, clock[n], j);
      assert ids == ids[..n] + [ids[n]];
      if EligibleIn(organizationId, ids, action)(rows[j]) {
        FirstIndexSnoc(ids[..n], ids[n], rows[j].id);
        if rows[j].id in ids[..n] {
          ActionsAreNotRepeatable(action, rows[j], clock[FirstIndex(ids[..n], rows[j].id)]);
        }
      }
    }
  }

  lemma {:induction false} FirstIndexSnoc(ids: seq<string>, last: string, id: string)
    requires id in ids + [last]
    ensures FirstIndex(ids + [last], id) == if id in ids then FirstIndex(ids, id) else |ids|
  {
    if ids != [] && ids[0] != id {
      assert (ids + [last])[1..] == ids[1..] + [last];
      assert ids == [ids[0]] + ids[1..];
      FirstIndexSnoc(ids[1..], last, id);
    }
  }

  /** The status an action that was not refused leaves behind. */
  function StatusAfter(action: Action): Status {
    match action
    case Issue => Sent
    case MarkPaid(_, _) => Paid
    case Cancel => Cancelled
  }

  /** What the action says about an id that comes up after the ids in `before`, if it does not succeed. */
  function ReasonAt(
    rows: seq<Invoice>, organizationId: string, before: seq<string>, id: string, action: Action): Option<Failure>
  {
    var found := FindRow(rows, organizationId, id);
    if found.None? then Some(NotFound)
    else
      var status := rows[found.value].status;
      Refusal(action, if id in before && Refusal(action, status).None? then StatusAfter(action) else status)
  }

  /**
   The errors of a bulk action, read off the table at the start: an id fails when it names no live invoice of the
   organisation, when the invoice's status refuses the action, or when an earlier mention has used it up.
   */
  function ExpectedErrors(rows: seq<Invoice>, organizationId: string, ids: seq<string>, action: Action)
    : seq<BulkError>
  {
    if ids == [] then []
    else
      var before, id := ids[..|ids| - 1], ids[|ids| - 1];
      var rest, reason := ExpectedErrors(rows, organizationId, before, action),
                          ReasonAt(rows, organizationId, before, id, action);
      if reason.None? then rest else rest + [BulkError(id, reason.value)]
  }

  /** Main result on bulk actions: counts, the final table, and what repeating the call does. */
  lemma {:induction false} BulkMeaning(
    rows: seq<Invoice>, organizationId: string, ids: seq<string>, action: Action, clock: seq<int>)
    requires UniqueIds(rows) && |clock| == |ids|
    ensures var (rows', r) := Bulk(rows, organizationId, ids, action, clock);
      && r.success + r.failed == |ids| && |r.errors| == r.failed
      && r.success == Count(rows, EligibleIn(organizationId, ids, action))
      && |rows'| == |rows|
      && (forall j :: 0 <= j < |rows| ==> rows'[j] == AfterBulk(rows[j], organizationId, ids, action, clock))
  {
    BulkCounts(rows, organizationId, ids, action, clock);
    BulkOnRows(rows, organizationId, ids, action, clock);
  }

  lemma {:induction false} BulkLength(
    rows: seq<Invoice>, organizationId: string, ids: seq<string>, action: Action, clock: seq<int>)
    requires |clock| == |ids|
    ensures |Bulk(rows, organizationId, ids, action, clock).0| == |rows|
    decreases |ids|
  {
    if ids != [] {
      BulkLength(rows, organizationId, ids[..|ids| - 1], action, clock[..|ids| - 1]);
    }
  }

  lemma {:induction false} BulkOnRows(
    rows: seq<Invoice>, organizationId: string, ids: seq<string>, action: Action, clock: seq<int>)
    requires UniqueIds(rows) && |clock| == |ids|
    ensures var rows' := Bulk(rows, organizationId, ids, action, clock).0;
      && |rows'| == |rows| && UniqueIds(rows')
      && (forall j :: 0 <= j < |rows| ==> rows'[j] == AfterBulk(rows[j], organizationId, ids, action, clock))
  {
    BulkLength(rows, organizationId, ids, action, clock);
    forall j | 0 <= j < |rows|
      ensures UniqueIds(Bulk(rows, organizationId, ids, action, clock).0)
      ensures Bulk(rows, organizationId, ids, action, clock).0[j]
           == AfterBulk(rows[j], organizationId, ids, action, clock)
    {
      BulkOnRow(rows, organizationId, ids, action, clock, j);
    }
  }

  lemma {:induction false} BulkCounts(
    rows: seq<Invoice>, organizationId: string, ids: seq<string>, action: Action, clock: seq<int>)
    requires UniqueIds(rows) && |clock| == |ids|
    ensures var r := Bulk(rows, organizationId, ids, action, clock).1;
      && r.success + r.failed == |ids| && |r.errors| == r.failed
      && r.success == Count(rows, EligibleIn(organizationId, ids, action))
    decreases |ids|
  {
    if ids == [] {
      NoneCounted(rows, EligibleIn(organizationId, ids, action));
    } else {
      var n := |ids| - 1;
      var most, id := ids[..n], ids[n];
      var rows' := Bulk(rows, organizationId, most, action, clock[..n]).0;
      BulkCounts(rows, organizationId, most, action, clock[..n]);
      BulkOnRows(rows, organizationId, most, action, clock[..n]);
      StillEligible(rows, rows', organizationId, most, id, action, clock[..n]);
      ActMeaning(rows', organizationId, id, action, clock[n]);
      CountOneMore(rows, organizationId, most, id, action);
      assert most + [id] == ids;
    }
  }

  /** One more id in the list makes one more invoice count, if it is new and names an eligible one. */
  lemma {:induction false} CountOneMore(
    rows: seq<Invoice>, organizationId: string, ids: seq<string>, id: string, action: Action)
    requires UniqueIds(rows)
    ensures Count(rows, EligibleIn(organizationId, ids + [id], action))
         == Count(rows, EligibleIn(organizationId, ids, action))
          + if id !in ids && (exists inv <- rows :: Eligible(inv, organizationId, action) && inv.id == id) then 1 else 0
  {
    var before, after := EligibleIn(organizationId, ids, action), EligibleIn(organizationId, ids + [id], action);
    if id !in ids && exists inv <- rows :: Eligible(inv, organizationId, action) && inv.id == id {
      var inv :| inv in rows && Eligible(inv, organizationId, action) && inv.id == id;
      var i :| 0 <= i < |rows| && rows[i] == inv;
      var gone := inv.(deleted := true);
      CountUpdate(rows, i, gone, after);
      CountUpdate(rows, i, gone, before);
      CountCongruent(rows[i := gone], before, after);
    } else {
      forall i | 0 <= i < |rows| ensures before(rows[i]) == after(rows[i]) {
        assert rows[i] in rows;
      }
      CountCongruent(rows, before, after);
    }
  }

  /** The order and number of the ids do not matter: equal id sets give equal statuses and equal successes. */
  lemma {:induction false} BulkIgnoresOrder(
    rows: seq<Invoice>, organizationId: string, ids: seq<string>, ids': seq<string>, action: Action,
    clock: seq<int>, clock': seq<int>)
    requires UniqueIds(rows) && |clock| == |ids| && |clock'| == |ids'|
    requires forall id :: id in ids <==> id in ids'
    ensures var (a, r) := Bulk(rows, organizationId, ids, action, clock);
            var (b, r') := Bulk(rows, organizationId, ids', action, clock');
            && r.success == r'.success && r.failed - r'.failed == |ids| - |ids'|
            && |a| == |b| && (forall j :: 0 <= j < |a| ==> a[j].status == b[j].status && a[j].id == b[j].id)
  {
    BulkMeaning(rows, organizationId, ids, action, clock);
    BulkMeaning(rows, organizationId, ids', action, clock');
    CountCongruent(rows, EligibleIn(organizationId, ids, action), EligibleIn(organizationId, ids', action));
  }

  /** A second call with the same ids does nothing. */
  lemma {:induction false} BulkTwice(
    rows: seq<Invoice>, organizationId: string, ids: seq<string>, action: Action, clock: seq<int>, clock': seq<int>)
    requires UniqueIds(rows) && |clock| == |clock'| == |ids|
    ensures var rows' := Bulk(rows, organizationId, ids, action, clock).0;
            var (again, r) := Bulk(rows', organizationId, ids, action, clock');
            again == rows' && r.success == 0 && r.failed == |ids|
  {
    var rows' := Bulk(rows, organizationId, ids, action, clock).0;
    BulkMeaning(rows, organizationId, ids, action, clock);
    forall j | 0 <= j < |rows| ensures rows'[j].id == rows[j].id && !EligibleIn(organizationId, ids, action)(rows'[j]) {
      if EligibleIn(organizationId, ids, action)(rows[j]) {
        ActionsAreNotRepeatable(action, rows[j], clock[FirstIndex(ids, rows[j].id)]);
      }
    }
    BulkMeaning(rows', organizationId, ids, action, clock');
    NoneCounted(rows', EligibleIn(organizationId, ids, action));
  }

  /** The errors name the failed ids in the order of the list, each with the reason its invoice gives at that point. */
  lemma {:induction false} BulkErrorsInOrder(
    rows: seq<Invoice>, organizationId: string, ids: seq<string>, action: Action, clock: seq<int>)
    requires UniqueIds(rows) && |clock| == |ids|
    ensures Bulk(rows, organizationId, ids, action, clock).1.errors == ExpectedErrors(rows, organizationId, ids, action)
  {
    hide Act, AfterBulk, Eligible, UniqueIds, ReasonAt;
    if ids != [] {
      var n := |ids| - 1;
      var most, id := ids[..n], ids[n];
      var rows' := Bulk(rows, organizationId, most, action, clock[..n]).0;
      BulkErrorsInOrder(rows, organizationId, most, action, clock[..n]);
      BulkOnRows(rows, organizationId, most, action, clock[..n]);
      ReasonAfterBulk(rows, rows', organizationId, most, id, action, clock[..n], clock[n]);
    }
  }

  lemma {:induction false} ReasonAfterBulk(
    rows: seq<Invoice>, rows': seq<Invoice>, organizationId: string, before: seq<string>, id: string, action: Action,
    clock: seq<int>, now: int)
    requires UniqueIds(rows) && |clock| == |before| && |rows'| == |rows|
    requires forall j :: 0 <= j < |rows| ==> rows'[j] == AfterBulk(rows[j], organizationId, before, action, clock)
    ensures Act(rows', organizationId, id, action, now).1 == ReasonAt(rows, organizationId, before, id, action)
  {
    forall j | 0 <= j < |rows| ensures IsRow(rows'[j], organizationId, id) <==> IsRow(rows[j], organizationId, id) {
    }
    var found := FindRow(rows, organizationId, id);
    var found' := FindRow(rows', organizationId, id);
    if found.Some? {
      assert IsRow(rows'[found.value], organizationId, id);
      assert found'.Some? && IsRow(rows[found'.value], organizationId, id);
      assert found'.value == found.value;
    }
  }

  lemma {:induction false} StillEligible(
    rows: seq<Invoice>, rows': seq<Invoice>, organizationId: string, ids: seq<string>, id: string, action: Action,
    clock: seq<int>)
    requires UniqueIds(rows) && |clock| == |ids| && |rows'| == |rows|
    requires forall j :: 0 <= j < |rows| ==> rows'[j] == AfterBulk(rows[j], organizationId, ids, action, clock)
    ensures UniqueIds(rows')
    ensures (exists inv <- rows' :: Eligible(inv, organizationId, action) && inv.id == id)
       <==> id !in ids && (exists inv <- rows :: Eligible(inv, organizationId, action) && inv.id == id)
  {
    forall j | 0 <= j < |rows|
      ensures rows'[j].id == rows[j].id
      ensures Eligible(rows'[j], organizationId, action)
         <==> Eligible(rows[j], organizationId, action) && rows[j].id !in ids
    {
      if EligibleIn(organizationId, ids, action)(rows[j]) {
        ActionsAreNotRepeatable(action, rows[j], clock[FirstIndex(ids, rows[j].id)]);
      }
    }
    if id !in ids {
      if inv :| inv in rows && Eligible(inv, organizationId, action) && inv.id == id {
        var j :| 0 <= j < |rows| && rows[j] == inv;
        assert rows'[j] in rows';
      }
    }
    if inv :| inv in rows' && Eligible(inv, organizationId, action) && inv.id == id {
      var j :| 0 <= j < |rows'| && rows'[j] == inv;
      assert rows[j] in rows;
    }
  }

  // ----- The actions, field by field -----

  /**
   Issuing takes drafts only. It marks the invoice sent and keeps a due date there was; without one it is due seven
   days from now. No other field and no other invoice changes.
   */
  lemma {:induction false} IssueOnFields(rows: seq<Invoice>, organizationId: string, id: string, now: int, j: nat)
    requires UniqueIds(rows) && j < |rows|
    requires rows[j].id == id && rows[j].organizationId == organizationId && !rows[j].deleted
    ensures var (rows', failure) := Act(rows, organizationId, id, Issue, now);
            var before := rows[j];
      && |rows'| == |rows| && (forall k :: 0 <= k < |rows| && k != j ==> rows'[k] == rows[k])
      && (failure.None? <==> before.status == Draft)
      && (failure.Some? ==> failure.value == NotADraft(before.status) && rows'[j] == before)
      && (failure.None? && before.dueDate.Some? ==> rows'[j] == before.(status := Sent))
      && (failure.None? && before.dueDate.None? ==>
            rows'[j] == before.(status := Sent, dueDate := Some(now + 7 * 24 * 60 * 60 * 1000)))
  {
    OnlyRow(rows, organizationId, id, j);
  }

  /**
   Only issued and overdue invoices are paid. The payment date is the one given, or now; the method is the one
   given, or none. No other field and no other invoice changes.
   */
  lemma {:induction false} MarkPaidOnFields(
    rows: seq<Invoice>, organizationId: string, id: string, paidOn: Option<int>, paidBy: Option<string>, now: int,
    j: nat)
    requires UniqueIds(rows) && j < |rows|
    requires rows[j].id == id && rows[j].organizationId == organizationId && !rows[j].deleted
    ensures var (rows', failure) := Act(rows, organizationId, id, MarkPaid(paidOn, paidBy), now);
            var before := rows[j];
      && |rows'| == |rows| && (forall k :: 0 <= k < |rows| && k != j ==> rows'[k] == rows[k])
      && (failure.None? <==> before.status == Sent || before.status == Overdue)
      && (failure == Some(AlreadyPaid) <==> before.status == Paid)
      && (failure == Some(CancelledIsNotPayable) <==> before.status == Cancelled)
      && (failure == Some(IssueFirst) <==> before.status == Draft)
      && (failure.Some? ==> rows'[j] == before)
      && (failure.None? && paidOn.Some? ==>
            rows'[j] == before.(status := Paid, paidAt := Some(paidOn.value), paymentMethod := paidBy))
      && (failure.None? && paidOn.None? ==>
            rows'[j] == before.(status := Paid, paidAt := Some(now), paymentMethod := paidBy))
  {
    OnlyRow(rows, organizationId, id, j);
  }

  /** Cancelling takes what is neither paid nor cancelled, and changes nothing but its status. */
  lemma {:induction false} CancelOnFields(rows: seq<Invoice>, organizationId: string, id: string, now: int, j: nat)
    requires UniqueIds(rows) && j < |rows|
    requires rows[j].id == id && rows[j].organizationId == organizationId && !rows[j].deleted
    ensures var (rows', failure) := Act(rows, organizationId, id, Cancel, now);
            var before := rows[j];
      && |rows'| == |rows| && (forall k :: 0 <= k < |rows| && k != j ==> rows'[k] == rows[k])
      && (failure.None? <==> before.status == Draft || before.status == Sent || before.status == Overdue)
      && (failure == Some(AlreadyCancelled) <==> before.status == Cancelled)
      && (failure == Some(PaidIsNotCancellable) <==> before.status == Paid)
      && rows'[j] == if failure.None? then before.(status := Cancelled) else before
  {
    OnlyRow(rows, organizationId, id, j);
  }

  /** The status route sets the status it is given on the invoice named, and nothing else. */
  lemma {:induction false} UpdateStatusOnFields(
    rows: seq<Invoice>, organizationId: string, id: string, status: Status, j: nat)
    requires UniqueIds(rows) && j < |rows|
    requires rows[j].id == id && rows[j].organizationId == organizationId && !rows[j].deleted
    ensures Overwrite(rows, organizationId, id, status) == (rows[j := rows[j].(status := status)], None)
  {
    OnlyRow(rows, organizationId, id, j);
  }

  /** An action or a status for an id that is no live invoice of the organisation finds nothing and changes nothing. */
  lemma {:induction false} MissingOnFields(
    rows: seq<Invoice>, organizationId: string, id: string, action: Action, status: Status, now: int)
    requires forall i :: 0 <= i < |rows| ==>
      rows[i].id != id || rows[i].organizationId != organizationId || rows[i].deleted
    ensures Act(rows, organizationId, id, action, now) == (rows, Some(NotFound))
    ensures Overwrite(rows, organizationId, id, status) == (rows, Some(NotFound))
  {
  }

  lemma {:induction false} OnlyRow(rows: seq<Invoice>, organizationId: string, id: string, j: nat)
    requires UniqueIds(rows) && j < |rows| && IsRow(rows[j], organizationId, id)
    ensures FindRow(rows, organizationId, id) == Some(j)
  {
    var found := FindRow(rows, organizationId, id);
    assert found.Some?;
    assert found.value == j;
  }
}
