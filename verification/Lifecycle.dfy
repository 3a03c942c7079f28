/** What every run of the invoice actions keeps: money, due dates, payments, and the order of statuses. */
module Lifecycle {
  import opened Text
  import opened Sequences
  import opened Ledger
  import opened Invoices
  import opened Overdue

  datatype Op =
    | Create(draft: Invoice)
    | Subscribe(invoice: Invoice)
    | Perform(organizationId: string, id: string, action: Action, now: int)
    | SetStatus(organizationId: string, id: string, status: Status)
    | Sweep(at: int)

  predicate IsOp(op: Op) {
    (op.Create? ==> IsFreshDraft(op.draft)) && (op.Subscribe? ==> IsSubscriptionInvoice(op.invoice))
  }

  predicate HasId(rows: seq<Invoice>, id: string) {
    exists i :: 0 <= i < |rows| && rows[i].id == id
  }

  function Step(rows: seq<Invoice>, op: Op): seq<Invoice> {
    match op
    case Create(draft) => if HasId(rows, draft.id) then rows else rows + [draft]
    case Subscribe(invoice) => if HasId(rows, invoice.id) then rows else rows + [invoice]
    case Perform(organizationId, id, action, now) => Act(rows, organizationId, id, action, now).0
    case SetStatus(organizationId, id, status) => Overwrite(rows, organizationId, id, status).0
    case Sweep(at) => MarkRows(rows, IsPastDue(at))
  }

  function Run(rows: seq<Invoice>, ops: seq<Op>): seq<Invoice>
    decreases |ops|
  {
    if ops == [] then rows else Run(Step(rows, ops[0]), ops[1..])
  }

  lemma {:induction false} StepKeepsIds(rows: seq<Invoice>, op: Op)
    requires UniqueIds(rows) && IsOp(op)
    ensures UniqueIds(Step(rows, op)) && |rows| <= |Step(rows, op)|
    ensures forall j :: 0 <= j < |rows| ==> Step(rows, op)[j].id == rows[j].id
  {
  }

  // ----- Money -----

  function OpenOf(organizationId: string): Invoice -> bool {
    inv => IsLiveOf(inv, organizationId) && IsOpen(inv)
  }

  function PaidOf(organizationId: string): Invoice -> bool {
    inv => IsLiveOf(inv, organizationId) && IsPaid(inv)
  }

  function NotCancelledOf(organizationId: string): Invoice -> bool {
    inv => IsLiveOf(inv, organizationId) && IsLiveStatus(inv)
  }

  /** The aggregates of the accounting overview of one organisation. */
  datatype Overview = Overview(
    openInvoiceCount: nat, openInvoiceTotal: int, collectedCount: nat, collectedTotal: int, totalAmount: int)

  function GetInvoiceOverview(rows: seq<Invoice>, organizationId: string): Overview {
    Overview(
      Count(rows, OpenOf(organizationId)),
      SumWhere(rows, OpenOf(organizationId), Total),
      Count(rows, PaidOf(organizationId)),
      SumWhere(rows, PaidOf(organizationId), Total),
      SumWhere(rows, NotCancelledOf(organizationId), Total))
  }

  /** Open and collected totals partition the total of the invoices that are not cancelled. */
  lemma {:induction false} OverviewAddsUp(rows: seq<Invoice>, organizationId: string)
    ensures var o := GetInvoiceOverview(rows, organizationId);
      && o.openInvoiceTotal + o.collectedTotal == o.totalAmount
      && o.openInvoiceCount + o.collectedCount == Count(rows, NotCancelledOf(organizationId))
  {
    if rows != [] {
      OverviewAddsUp(rows[1..], organizationId);
    }
  }

  /** The organisation's invoice a successful action or the status route worked on. */
  function Target(rows: seq<Invoice>, op: Op, organizationId: string): Option<Invoice> {
    if (op.Perform? || op.SetStatus?) && op.organizationId == organizationId then
      var found := FindRow(rows, op.organizationId, op.id);
      if found.Some? && (op.Perform? ==> Refusal(op.action, rows[found.value].status).None?)
      then Some(rows[found.value]) else None
    else None
  }

  /**
   Amounts that one step adds as new invoices, turns into payments, and cancels. An invoice for a paid subscription
   is new and paid at once. The status route can also take a payment or a cancellation back, which counts as negative.
   */
  datatype Flow = Flow(created: int, paid: int, cancelled: int)

  function If(condition: bool, amount: int): int {
    if condition then amount else 0
  }

  function FlowOf(rows: seq<Invoice>, op: Op, organizationId: string): Flow {
    var target := Target(rows, op, organizationId);
    if op.Create? && op.draft.organizationId == organizationId && !HasId(rows, op.draft.id)
    then Flow(op.draft.total, 0, 0)
    else if op.Subscribe? && op.invoice.organizationId == organizationId && !HasId(rows, op.invoice.id)
    then Flow(op.invoice.total, op.invoice.total, 0)
    else if target.None? then Flow(0, 0, 0)
    else
      var total, status := target.value.total, target.value.status;
      if op.Perform? then Flow(0, If(op.action.MarkPaid?, total), If(op.action.Cancel?, total))
      else if op.SetStatus? then
        Flow(0, If(op.status == Paid, total) - If(status == Paid, total),
             If(op.status == Cancelled, total) - If(status == Cancelled, total))
      else Flow(0, 0, 0)
  }

  function FlowOfRun(rows: seq<Invoice>, ops: seq<Op>, organizationId: string): Flow
    decreases |ops|
  {
    if ops == [] then Flow(0, 0, 0)
    else
      var first := FlowOf(rows, ops[0], organizationId);
      var later := FlowOfRun(Step(rows, ops[0]), ops[1..], organizationId);
      Flow(first.created + later.created, first.paid + later.paid, first.cancelled + later.cancelled)
  }

  lemma {:induction false} SumWhereUpdate(rows: seq<Invoice>, i: nat, x: Invoice, keep: Invoice -> bool)
    requires i < |rows|
    ensures SumWhere(rows[i := x], keep, Total)
         == SumWhere(rows, keep, Total) - (if keep(rows[i]) then rows[i].total else 0)
          + (if keep(x) then x.total else 0)
  {
    assert rows == rows[..i] + [rows[i]] + rows[i + 1..] && rows[i := x] == rows[..i] + [x] + rows[i + 1..];
    SumWhereAppend(rows[..i] + [rows[i]], rows[i + 1..], keep, Total);
    SumWhereAppend(rows[..i], [rows[i]], keep, Total);
    SumWhereAppend(rows[..i] + [x], rows[i + 1..], keep, Total);
    SumWhereAppend(rows[..i], [x], keep, Total);
  }

  lemma {:induction false} SweepMovesNoMoney(rows: seq<Invoice>, at: int, organizationId: string)
    ensures SumWhere(MarkRows(rows, IsPastDue(at)), OpenOf(organizationId), Total)
         == SumWhere(rows, OpenOf(organizationId), Total)
    ensures SumWhere(MarkRows(rows, IsPastDue(at)), PaidOf(organizationId), Total)
         == SumWhere(rows, PaidOf(organizationId), Total)
  {
    if rows != [] {
      SweepMovesNoMoney(rows[1..], at, organizationId);
      assert MarkRows(rows, IsPastDue(at))[1..] == MarkRows(rows[1..], IsPastDue(at));
    }
  }

  /**
   One step: a new draft is owed, a paid subscription is collected, a payment moves its amount to collected, a
   cancellation removes it.
   */
  lemma {:induction false} StepMovesMoney(rows: seq<Invoice>, op: Op, organizationId: string)
    requires UniqueIds(rows) && IsOp(op)
    ensures var flow := FlowOf(rows, op, organizationId);
      && SumWhere(Step(rows, op), OpenOf(organizationId), Total)
           == SumWhere(rows, OpenOf(organizationId), Total) + flow.created - flow.paid - flow.cancelled
      && SumWhere(Step(rows, op), PaidOf(organizationId), Total)
           == SumWhere(rows, PaidOf(organizationId), Total) + flow.paid
  {
    hide SumWhere, Act, Overwrite;
    match op
    case Create(draft) =>
      if !HasId(rows, draft.id) {
        SumOfNewRow(rows, draft, OpenOf(organizationId));
        SumOfNewRow(rows, draft, PaidOf(organizationId));
      }
    case Subscribe(invoice) =>
      if !HasId(rows, invoice.id) {
        SumOfNewRow(rows, invoice, OpenOf(organizationId));
        SumOfNewRow(rows, invoice, PaidOf(organizationId));
      }
    case Perform(org, id, action, now) =>
      ActionMovesMoney(rows, org, id, action, now, organizationId);
    case SetStatus(org, id, status) =>
      OverwriteMovesMoney(rows, org, id, status, organizationId);
    case Sweep(at) =>
      SweepMovesNoMoney(rows, at, organizationId);
  }

  lemma {:induction false} SumOfNewRow(rows: seq<Invoice>, row: Invoice, keep: Invoice -> bool)
    ensures SumWhere(rows + [row], keep, Total)
         == SumWhere(rows, keep, Total) + if keep(row) then row.total else 0
  {
    SumWhereAppend(rows, [row], keep, Total);
    assert [row][1..] == [];
  }

  lemma {:induction false} ActionMovesMoney(
    rows: seq<Invoice>, org: string, id: string, action: Action, now: int, organizationId: string)
    ensures var rows' := Act(rows, org, id, action, now).0;
            var flow := FlowOf(rows, Perform(org, id, action, now), organizationId);
      && SumWhere(rows', OpenOf(organizationId), Total)
           == SumWhere(rows, OpenOf(organizationId), Total) + flow.created - flow.paid - flow.cancelled
      && SumWhere(rows', PaidOf(organizationId), Total)
           == SumWhere(rows, PaidOf(organizationId), Total) + flow.paid
  {
    hide SumWhere;
    var found := FindRow(rows, org, id);
    if found.Some? && Refusal(action, rows[found.value].status).None? {
      var x := Apply(action, rows[found.value], now);
      SumWhereUpdate(rows, found.value, x, OpenOf(organizationId));
      SumWhereUpdate(rows, found.value, x, PaidOf(organizationId));
    }
  }

  lemma {:induction false} OverwriteMovesMoney(
    rows: seq<Invoice>, org: string, id: string, status: Status, organizationId: string)
    ensures var rows' := Overwrite(rows, org, id, status).0;
            var flow := FlowOf(rows, SetStatus(org, id, status), organizationId);
      && SumWhere(rows', OpenOf(organizationId), Total)
           == SumWhere(rows, OpenOf(organizationId), Total) + flow.created - flow.paid - flow.cancelled
      && SumWhere(rows', PaidOf(organizationId), Total)
           == SumWhere(rows, PaidOf(organizationId), Total) + flow.paid
  {
    hide SumWhere;
    var found := FindRow(rows, org, id);
    if found.Some? {
      var x := rows[found.value].(status := status);
      SumWhereUpdate(rows, found.value, x, OpenOf(organizationId));
      SumWhereUpdate(rows, found.value, x, PaidOf(organizationId));
    }
  }

  /**
   Conservation over every run, for every organisation: what is owed is what was owed, plus the invoices
   created, less the payments and cancellations; what is collected grew by exactly the payments. This holds with
   the unchecked status route among the operations.
   */
  lemma {:induction false} RunConservesMoney(rows: seq<Invoice>, ops: seq<Op>, organizationId: string)
    requires UniqueIds(rows) && forall op <- ops :: IsOp(op)
    ensures var before := GetInvoiceOverview(rows, organizationId);
            var after := GetInvoiceOverview(Run(rows, ops), organizationId);
            var flow := FlowOfRun(rows, ops, organizationId);
      && after.openInvoiceTotal == before.openInvoiceTotal + flow.created - flow.paid - flow.cancelled
      && after.collectedTotal == before.collectedTotal + flow.paid
      && after.totalAmount == before.totalAmount + flow.created - flow.cancelled
    decreases |ops|
  {
    if ops != [] {
      StepKeepsIds(rows, ops[0]);
      StepMovesMoney(rows, ops[0], organizationId);
      RunConservesMoney(Step(rows, ops[0]), ops[1..], organizationId);
    }
    OverviewAddsUp(rows, organizationId);
    OverviewAddsUp(Run(rows, ops), organizationId);
  }

  // ----- Due dates and payments -----

  /** Issued invoices have a due date, and an invoice has a payment date exactly when it is paid. */
  predicate WellFormed(inv: Invoice) {
    && (inv.status == Sent || inv.status == Ledger.Overdue || inv.status == Paid ==> inv.dueDate.Some?)
    && (inv.paidAt.Some? <==> inv.status == Paid)
  }

  predicate AllWellFormed(rows: seq<Invoice>) {
    forall i :: 0 <= i < |rows| ==> WellFormed(rows[i])
  }

  /**
   The statuses the unchecked route may set without breaking the dates: paid for exactly the paid invoices, and
   only draft or cancelled for an invoice without a due date.
   */
  predicate IsHarmless(inv: Invoice, status: Status) {
    && (status == Paid <==> inv.status == Paid)
    && (inv.dueDate.Some? || status == Draft || status == Cancelled)
  }

  /** Only two steps can do harm: the unchecked route, and a new invoice for a paid subscription. */
  predicate IsHarmlessStep(rows: seq<Invoice>, op: Op) {
    && (op.Subscribe? ==> HasId(rows, op.invoice.id))
    && (op.SetStatus? ==>
          var found := FindRow(rows, op.organizationId, op.id);
          found.Some? ==> IsHarmless(rows[found.value], op.status))
  }

  lemma {:induction false} StepKeepsWellFormed(rows: seq<Invoice>, op: Op)
    requires IsOp(op) && AllWellFormed(rows)
    ensures AllWellFormed(Step(rows, op)) <==> IsHarmlessStep(rows, op)
  {
    if op.SetStatus? {
      var found := FindRow(rows, op.organizationId, op.id);
      if found.Some? {
        var i, rows' := found.value, Step(rows, op);
        assert rows'[i] == rows[i].(status := op.status);
        assert forall j :: 0 <= j < |rows| && j != i ==> rows'[j] == rows[j];
      }
    } else if op.Subscribe? && !HasId(rows, op.invoice.id) {
      assert Step(rows, op)[|rows|] == op.invoice && !WellFormed(op.invoice);
    }
  }

  /** Every table of the run is well formed. */
  predicate StaysWellFormed(rows: seq<Invoice>, ops: seq<Op>)
    decreases |ops|
  {
    AllWellFormed(rows) && (ops != [] ==> StaysWellFormed(Step(rows, ops[0]), ops[1..]))
  }

  predicate IsHarmlessRun(rows: seq<Invoice>, ops: seq<Op>)
    decreases |ops|
  {
    ops != [] ==> IsHarmlessStep(rows, ops[0]) && IsHarmlessRun(Step(rows, ops[0]), ops[1..])
  }

  /**
   In a run dates and statuses agree throughout exactly when every use of the unchecked route is harmless and no
   subscription is billed.
   */
  lemma {:induction false} RunKeepsWellFormed(rows: seq<Invoice>, ops: seq<Op>)
    requires AllWellFormed(rows) && forall op <- ops :: IsOp(op)
    ensures StaysWellFormed(rows, ops) <==> IsHarmlessRun(rows, ops)
    ensures IsHarmlessRun(rows, ops) ==> AllWellFormed(Run(rows, ops))
    decreases |ops|
  {
    hide AllWellFormed, IsHarmlessStep, Step, IsOp;
    if ops != [] {
      assert ops[0] in ops && forall op <- ops[1..] :: op in ops;
      StepKeepsWellFormed(rows, ops[0]);
      if IsHarmlessStep(rows, ops[0]) {
        RunKeepsWellFormed(Step(rows, ops[0]), ops[1..]);
      } else {
        NotWellFormedNow(Step(rows, ops[0]), ops[1..]);
      }
    }
  }

  lemma NotWellFormedNow(rows: seq<Invoice>, ops: seq<Op>)
    requires !AllWellFormed(rows)
    ensures !StaysWellFormed(rows, ops)
  {
  }

  /** The route marks any issued invoice paid without a payment date, and takes any paid one back to draft. */
  lemma {:induction false} StatusRouteBreaksDates(rows: seq<Invoice>, organizationId: string, id: string)
    requires AllWellFormed(rows) && FindRow(rows, organizationId, id).Some?
    ensures var i := FindRow(rows, organizationId, id).value;
      && (rows[i].status == Sent ==>
            var after := Step(rows, SetStatus(organizationId, id, Paid))[i];
            after.status == Paid && after.paidAt.None? && !WellFormed(after))
      && (rows[i].status == Paid ==>
            var after := Step(rows, SetStatus(organizationId, id, Draft))[i];
            after.status == Draft && after.paidAt.Some? && !WellFormed(after)
            && Rank(after.status) < Rank(rows[i].status))
  {
    assert WellFormed(rows[FindRow(rows, organizationId, id).value]);
  }

  // ----- Statuses only move forward -----

  function Rank(status: Status): nat {
    match status
    case Draft => 0
    case Sent => 1
    case Overdue => 2
    case Paid => 3
    case Cancelled => 3
  }

  /** The unchecked route goes forward when it sets the status there already is or one of higher rank. */
  predicate IsForwardStep(rows: seq<Invoice>, op: Op) {
    op.SetStatus? ==>
      var found := FindRow(rows, op.organizationId, op.id);
      found.Some? ==>
        rows[found.value].status == op.status || Rank(rows[found.value].status) < Rank(op.status)
  }

  predicate IsForwardRun(rows: seq<Invoice>, ops: seq<Op>)
    decreases |ops|
  {
    ops != [] ==> IsForwardStep(rows, ops[0]) && IsForwardRun(Step(rows, ops[0]), ops[1..])
  }

  /** Every invoice is left alone or its rank rises, exactly when the step is forward. */
  lemma {:induction false} StepMovesForward(rows: seq<Invoice>, op: Op)
    ensures |rows| <= |Step(rows, op)|
    ensures (forall i :: 0 <= i < |rows| ==>
              Step(rows, op)[i] == rows[i] || Rank(rows[i].status) < Rank(Step(rows, op)[i].status))
       <==> IsForwardStep(rows, op)
  {
    if op.SetStatus? {
      var found := FindRow(rows, op.organizationId, op.id);
      if found.Some? {
        assert Step(rows, op)[found.value] == rows[found.value].(status := op.status);
      }
    }
  }

  /** Every step of the run leaves each invoice alone or raises its rank. */
  predicate RisesThroughout(rows: seq<Invoice>, ops: seq<Op>)
    decreases |ops|
  {
    ops != [] ==>
      var next := Step(rows, ops[0]);
      && |rows| <= |next|
      && (forall i :: 0 <= i < |rows| ==> next[i] == rows[i] || Rank(rows[i].status) < Rank(next[i].status))
      && RisesThroughout(next, ops[1..])
  }

  /** Statuses only rise throughout a run exactly when every use of the unchecked route goes forward. */
  lemma {:induction false} RunMovesForward(rows: seq<Invoice>, ops: seq<Op>)
    ensures RisesThroughout(rows, ops) <==> IsForwardRun(rows, ops)
    decreases |ops|
  {
    hide Step, IsForwardStep, Rank;
    if ops != [] {
      StepMovesForward(rows, ops[0]);
      RunMovesForward(Step(rows, ops[0]), ops[1..]);
    }
  }

  /** How many steps of the run changed the invoice. */
  function Changes(rows: seq<Invoice>, ops: seq<Op>, i: nat): nat
    decreases |ops|
  {
    if ops == [] || i >= |rows| || i >= |Step(rows, ops[0])| then 0
    else (if Step(rows, ops[0])[i] != rows[i] then 1 else 0) + Changes(Step(rows, ops[0]), ops[1..], i)
  }

  /**
   In every forward run an invoice changes at most as often as its status has ranks to climb, so never more than
   three times, and a paid or cancelled invoice never changes again.
   */
  lemma {:induction false} ChangesAreBounded(rows: seq<Invoice>, ops: seq<Op>, i: nat)
    requires i < |rows| && IsForwardRun(rows, ops)
    ensures |rows| <= |Run(rows, ops)|
    ensures Changes(rows, ops, i) <= Rank(Run(rows, ops)[i].status) - Rank(rows[i].status) <= 3
    ensures rows[i].status == Paid || rows[i].status == Cancelled ==> Run(rows, ops)[i] == rows[i]
    decreases |ops|
  {
    hide Step, IsForwardStep;
    if ops != [] {
      StepMovesForward(rows, ops[0]);
      ChangesAreBounded(Step(rows, ops[0]), ops[1..], i);
    }
  }

  /** Without the unchecked route every run is forward, and without billed subscriptions too it is harmless. */
  lemma {:induction false} CheckedRunsAreSafe(rows: seq<Invoice>, ops: seq<Op>)
    requires forall op <- ops :: !op.SetStatus?
    ensures IsForwardRun(rows, ops)
    ensures (forall op <- ops :: !op.Subscribe?) ==> IsHarmlessRun(rows, ops)
    decreases |ops|
  {
    if ops != [] {
      assert ops[0] in ops && forall op <- ops[1..] :: op in ops;
      CheckedRunsAreSafe(Step(rows, ops[0]), ops[1..]);
    }
  }

  /** The overview counts and sums the organisation's live invoices by status. */
  lemma {:induction false} OverviewOnFields(rows: seq<Invoice>, organizationId: string)
    ensures var o := GetInvoiceOverview(rows, organizationId);
            var open := (inv: Invoice) => inv.organizationId == organizationId && !inv.deleted
                          && (inv.status == Draft || inv.status == Sent || inv.status == Status.Overdue);
            var paid := (inv: Invoice) => inv.organizationId == organizationId && !inv.deleted && inv.status == Paid;
            var kept := (inv: Invoice) => inv.organizationId == organizationId && !inv.deleted
                          && inv.status != Cancelled;
            var total := (inv: Invoice) => inv.total;
      && o.openInvoiceCount == Count(rows, open) && o.openInvoiceTotal == SumWhere(rows, open, total)
      && o.collectedCount == Count(rows, paid) && o.collectedTotal == SumWhere(rows, paid, total)
      && o.totalAmount == SumWhere(rows, kept, total)
  {
    if rows != [] {
      OverviewOnFields(rows[1..], organizationId);
    }
  }
}
