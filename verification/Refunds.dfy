/** How often an order's commission is refunded over a run of completed calls. */
module Refunds {
  import opened Schema
  import opened Settlement
  import opened Totals
  import opened CommissionWallet
  import opened Disputes

  ghost function RefundFor(order: string): LedgerRow -> int {
    (row: LedgerRow) => if row.kind == RefundRow && row.reference == ForOrder(order) then 1 else 0
  }

  ghost function RefundCount(db: Db, order: string): int {
    Total(db.ledger, RefundFor(order))
  }

  // ---------------------------------------------------------------- what one call adds

  lemma SpecRefunds(db: Db, call: Call, order: string)
    requires Spec(db, call).Some?
    ensures RefundCount(Spec(db, call).value, order)
            == RefundCount(db, order) + if call.CRefund? && call.order == order then 1 else 0
  {
    var d := Spec(db, call).value;
    var f := RefundFor(order);
    match call
    case CReceipt(_, _, _, _, _, _) => ReceiptRefundsNothing(db, call, order);
    case CCredit(_, _, _, _, _, _) => CreditRefundsNothing(db, call, order);
    case CRefund(_, _, _, row) => TotalPut(db.ledger, f, row, d.ledger[row]);
    case CConfirm(row) => TotalPut(db.ledger, f, row, d.ledger[row]);
    case CRequest(row, _, _) => TotalPut(db.ledger, f, row, d.ledger[row]);
    case CActivate(_) =>
    case _ => NoWallet(db, call);
  }

  lemma CreditRefundsNothing(db: Db, call: Call, order: string)
    requires call.CCredit? && Spec(db, call).Some?
    ensures RefundCount(Spec(db, call).value, order) == RefundCount(db, order)
  {
    var paid := Deduct(db.resellers, db.ledger, call.reseller, call.amount, ForTopup(call.topup), call.row);
    if paid.Deducted? {
      TotalPut(db.ledger, RefundFor(order), call.row, paid.ledger[call.row]);
    }
  }

  lemma ReceiptRefundsNothing(db: Db, call: Call, order: string)
    requires call.CReceipt? && Spec(db, call).Some?
    ensures RefundCount(Spec(db, call).value, order) == RefundCount(db, order)
  {
    ReceiptTables(db, call.order, call.reseller, call.isTest, call.amount, call.row);
    var paid := Deduct(db.resellers, db.ledger, call.reseller, call.amount, ForOrder(call.order), call.row);
    if call.isTest {
    } else if paid.Deducted? {
      assert Spec(db, call).value.ledger == paid.ledger;
      DeductionIsNoRefund(db, call, order);
    }
  }

  lemma DeductionIsNoRefund(db: Db, call: Call, order: string)
    requires call.CReceipt?
    requires Deduct(db.resellers, db.ledger, call.reseller, call.amount, ForOrder(call.order), call.row).Deducted?
    ensures var paid := Deduct(db.resellers, db.ledger, call.reseller, call.amount, ForOrder(call.order), call.row);
            Total(paid.ledger, RefundFor(order)) == Total(db.ledger, RefundFor(order))
  {
    var paid := Deduct(db.resellers, db.ledger, call.reseller, call.amount, ForOrder(call.order), call.row);
    TotalPut(db.ledger, RefundFor(order), call.row, paid.ledger[call.row]);
  }

  /** The call completes a refund of the order: an approval of one of its disputes that goes through, or
      a refund made outside of any dispute. */
  predicate RefundsOrder(db: Db, op: Op, order: string) {
    match op
    case ApproveDispute(id, row) => id in db.disputes && db.disputes[id].order == order && Approve(db, id, row).Some?
    case Other(call) => call.CRefund? && call.order == order && Spec(db, call).Some?
    case _ => false
  }

  lemma ApproveLedger(db: Db, id: int, row: int)
    requires Approve(db, id, row).Some?
    ensures var dispute := db.disputes[id];
            Approve(db, id, row).value.ledger == db.ledger[row := LedgerRow(
              dispute.reseller, RefundRow, db.orders[dispute.order].commission, true, ForOrder(dispute.order))]
    ensures row !in db.ledger
  {
  }

  lemma PerformRefunds(db: Db, op: Op, order: string)
    requires op.Valid()
    ensures RefundCount(Perform(db, op), order) == RefundCount(db, order) + if RefundsOrder(db, op, order) then 1 else 0
  {
    match op
    case ApproveDispute(id, row) =>
      if Approve(db, id, row).Some? {
        ApproveLedger(db, id, row);
        TotalPut(db.ledger, RefundFor(order), row, Approve(db, id, row).value.ledger[row]);
      }
    case Ordering(call) => if Spec(db, call).Some? { SpecRefunds(db, call, order); }
    case Other(call) => if Spec(db, call).Some? { SpecRefunds(db, call, order); }
    case OpenDispute(_, _, _) =>
    case RejectDispute(_) =>
    case Report(_, _, _) =>
  }

  // ---------------------------------------------------------------- over whole runs

  predicate AllOpsValid(ops: seq<Op>) {
    forall i :: 0 <= i < |ops| ==> ops[i].Valid()
  }

  /** The refunds of the order that a run completes. */
  ghost function Completed(db: Db, ops: seq<Op>, order: string): (count: nat)
    requires AllOpsValid(ops)
  {
    if ops == [] then 0
    else
      var last := |ops| - 1;
      Completed(db, ops[..last], order) + if RefundsOrder(PerformAll(db, ops[..last]), ops[last], order) then 1 else 0
  }

  /** No refund of the order completes once one has. */
  ghost predicate NeverRefundedAgain(db: Db, ops: seq<Op>, order: string)
    requires AllOpsValid(ops)
  {
    ops == [] ||
    var last := |ops| - 1;
    && NeverRefundedAgain(db, ops[..last], order)
    && (RefundsOrder(PerformAll(db, ops[..last]), ops[last], order) ==> Completed(db, ops[..last], order) == 0)
  }

  /** Over any run the ledger gains one refund row of the order for each approval of a dispute of it that
      completes, however often and for however many disputes; at most one if and only if no refund of it
      completes once one has. */
  lemma {:induction false} RefundsAreApprovals(db: Db, ops: seq<Op>, order: string)
    requires AllOpsValid(ops)
    ensures RefundCount(PerformAll(db, ops), order) == RefundCount(db, order) + Completed(db, ops, order)
    ensures RefundCount(PerformAll(db, ops), order) <= RefundCount(db, order) + 1 <==>
              NeverRefundedAgain(db, ops, order)
  {
    if ops != [] {
      var last := |ops| - 1;
      RefundsAreApprovals(db, ops[..last], order);
      PerformRefunds(PerformAll(db, ops[..last]), ops[last], order);
    }
  }

  // ---------------------------------------------------------------- a guard that suffices

  predicate HasApproved(db: Db, order: string) {
    exists id | id in db.disputes :: db.disputes[id].order == order && db.disputes[id].review == Approved
  }

  predicate IsPending(db: Db, id: int) {
    id in db.disputes && db.disputes[id].review == ReviewPending
  }

  /** What a caller can look up before the call: only a pending dispute is approved or rejected, and none
      is approved while another dispute of its order is approved already. */
  predicate Guarded(db: Db, op: Op, order: string) {
    match op
    case ApproveDispute(id, _) =>
      id in db.disputes && db.disputes[id].order == order ==> IsPending(db, id) && !HasApproved(db, order)
    case RejectDispute(id) => id in db.disputes && db.disputes[id].order == order ==> IsPending(db, id)
    case Other(call) => !(call.CRefund? && call.order == order)
    case _ => true
  }

  ghost predicate AllGuarded(db: Db, ops: seq<Op>, order: string)
    requires AllOpsValid(ops)
  {
    ops == [] ||
    var last := |ops| - 1;
    AllGuarded(db, ops[..last], order) && Guarded(PerformAll(db, ops[..last]), ops[last], order)
  }

  /** Under the guard an approved dispute of the order stays approved, and a completed approval leaves one. */
  lemma GuardKeepsApproved(db: Db, op: Op, order: string)
    requires op.Valid() && Guarded(db, op, order)
    ensures HasApproved(db, order) ==> HasApproved(Perform(db, op), order) && !RefundsOrder(db, op, order)
    ensures RefundsOrder(db, op, order) ==> HasApproved(Perform(db, op), order)
  {
    var d := Perform(db, op);
    DisputesAfter(db, op);
    if HasApproved(db, order) {
      var id :| id in db.disputes && db.disputes[id].order == order && db.disputes[id].review == Approved;
      assert d.disputes[id] == db.disputes[id];
    }
    if RefundsOrder(db, op, order) {
      assert d.disputes[op.id].review == Approved && d.disputes[op.id].order == order;
    }
  }

  /** The dispute a call reviews, if it does. */
  function ReviewedBy(op: Op): (id: Option<int>) {
    match op
    case ApproveDispute(id, _) => Some(id)
    case RejectDispute(id) => Some(id)
    case _ => None
  }

  /** No dispute goes, none changes its order, and only `reviewed` changes its review. */
  ghost predicate OthersKept(disputes: map<int, Dispute>, after: map<int, Dispute>, reviewed: Option<int>) {
    forall id :: id in disputes ==>
      id in after && after[id].order == disputes[id].order && (Some(id) == reviewed || after[id] == disputes[id])
  }

  /** What a call does to the disputes. */
  lemma DisputesAfter(db: Db, op: Op)
    requires op.Valid()
    ensures OthersKept(db.disputes, Perform(db, op).disputes, ReviewedBy(op))
    ensures op.ApproveDispute? && Approve(db, op.id, op.row).Some? ==>
              op.id in db.disputes && Perform(db, op).disputes == Reviewed(db.disputes, op.id, Approved)
  {
    match op
    case ApproveDispute(id, row) => ApprovalAfter(db, id, row);
    case Ordering(call) => CallAfter(db, call);
    case Other(call) => CallAfter(db, call);
    case OpenDispute(_, _, _) =>
    case RejectDispute(_) =>
    case Report(_, _, _) =>
  }

  lemma CallAfter(db: Db, call: Call)
    ensures Or(Spec(db, call), db).disputes == db.disputes
  {
    if Spec(db, call).Some? {
      SpecLeavesDisputes(db, call);
    }
  }

  lemma ApprovalAfter(db: Db, id: int, row: int)
    ensures var after := Or(Approve(db, id, row), db).disputes;
            if Approve(db, id, row).Some? then id in db.disputes && after == Reviewed(db.disputes, id, Approved)
            else after == db.disputes
  {
    if Approve(db, id, row).Some? {
      ApproveDisputes(db, id, row);
    }
  }

  lemma ApproveDisputes(db: Db, id: int, row: int)
    requires Approve(db, id, row).Some?
    ensures id in db.disputes && Approve(db, id, row).value.disputes == Reviewed(db.disputes, id, Approved)
  {
  }

  /** Under the guard an order is refunded at most once, and not at all once a dispute of it is approved. */
  lemma {:induction false} GuardedRefundsOnce(db: Db, ops: seq<Op>, order: string)
    requires AllOpsValid(ops) && AllGuarded(db, ops, order)
    ensures RefundCount(PerformAll(db, ops), order) <= RefundCount(db, order) + 1
    ensures HasApproved(db, order) ==> RefundCount(PerformAll(db, ops), order) == RefundCount(db, order)
    ensures HasApproved(db, order) || RefundCount(PerformAll(db, ops), order) > RefundCount(db, order) ==>
              HasApproved(PerformAll(db, ops), order)
  {
    if ops != [] {
      var last := |ops| - 1;
      var mid := PerformAll(db, ops[..last]);
      GuardedRefundsOnce(db, ops[..last], order);
      PerformRefunds(mid, ops[last], order);
      GuardKeepsApproved(mid, ops[last], order);
    }
  }

  // ---------------------------------------------------------------- inputs that refund twice

  /** One approval that goes through: what it needs and what it leaves. */
  lemma OneApproval(db: Db, id: int, row: int, order: string)
    requires id in db.disputes && db.disputes[id].order == order && order in db.orders
    requires db.disputes[id].reseller in db.resellers && row !in db.ledger
    ensures Approve(db, id, row).Some?
    ensures var d := Perform(db, ApproveDispute(id, row));
            && RefundCount(d, order) == RefundCount(db, order) + 1
            && d.disputes == Reviewed(db.disputes, id, Approved)
            && d.orders.Keys == db.orders.Keys && d.resellers.Keys == db.resellers.Keys
            && d.ledger.Keys == db.ledger.Keys + {row}
  {
    ApprovedOnce(db, id, row);
    ApproveDisputes(db, id, row);
    PerformRefunds(db, ApproveDispute(id, row), order);
    ApproveTables(db, id, row);
  }

  /** Two disputes of one order, both pending, and rows for their refunds. */
  predicate TwoPending(db: Db, one: int, two: int, order: string, row: int, other: int) {
    && one != two && IsPending(db, one) && IsPending(db, two)
    && db.disputes[one].order == order && db.disputes[two].order == order && order in db.orders
    && db.disputes[one].reseller in db.resellers && db.disputes[two].reseller in db.resellers
    && row !in db.ledger && other !in db.ledger && row != other
  }

  /** Nothing keeps an order from having two disputes: each is pending when it is approved, and the
      commission is refunded twice. */
  lemma TwoDisputesRefundTwice(db: Db, one: int, two: int, order: string, row: int, other: int)
    requires TwoPending(db, one, two, order, row, other)
    ensures var first := Perform(db, ApproveDispute(one, row));
            var second := Perform(first, ApproveDispute(two, other));
            IsPending(first, two) && RefundCount(second, order) == RefundCount(db, order) + 2
  {
    var first := Perform(db, ApproveDispute(one, row));
    OneApproval(db, one, row, order);
    OneApproval(first, two, other, order);
  }

  /** A rejection overwrites an approval, so it is no guard either to ask that no dispute of the order is
      approved: approve, reject, and approve another pending dispute. */
  lemma RejectionForgetsApproval(db: Db, one: int, two: int, order: string, row: int, other: int)
    requires TwoPending(db, one, two, order, row, other) && !HasApproved(db, order)
    ensures var first := Perform(db, ApproveDispute(one, row));
            var denied := Perform(first, RejectDispute(one));
            var second := Perform(denied, ApproveDispute(two, other));
            && IsPending(denied, two) && !HasApproved(denied, order)
            && RefundCount(second, order) == RefundCount(db, order) + 2
  {
    var first := Perform(db, ApproveDispute(one, row));
    var denied := Perform(first, RejectDispute(one));
    OneApproval(db, one, row, order);
    assert denied.disputes == Reviewed(first.disputes, one, Denied);
    OneApproval(denied, two, other, order);
  }

  /** The same dispute approved again, whether it was rejected in between or not. */
  lemma ApprovedAgainIsRefundedAgain(db: Db, id: int, order: string, row: int, other: int, rejected: bool)
    requires id in db.disputes && db.disputes[id].order == order && order in db.orders
    requires db.disputes[id].reseller in db.resellers
    requires row !in db.ledger && other !in db.ledger && row != other
    ensures var first := Perform(db, ApproveDispute(id, row));
            var between := if rejected then Perform(first, RejectDispute(id)) else first;
            RefundCount(Perform(between, ApproveDispute(id, other)), order) == RefundCount(db, order) + 2
  {
    var first := Perform(db, ApproveDispute(id, row));
    var between := if rejected then Perform(first, RejectDispute(id)) else first;
    OneApproval(db, id, row, order);
    assert between == first.(disputes := between.disputes);
    OneApproval(between, id, other, order);
  }
}
