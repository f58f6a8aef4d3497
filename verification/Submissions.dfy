/** How often an order is charged its commission.  submit_receipt looks at the status of nothing: that
    the order still awaits payment when a submission begins is what the customer's dialogue supplies, and
    nothing asks again when it commits. */
module Submissions {
  import opened Schema
  import opened Settlement
  import opened History
  import opened Totals
  import opened Machine
  import opened Serial
  import opened CommissionWallet

  // ---------------------------------------------------------------- every interleaving

  /** No receipt of the order passes once one has passed. */
  ghost predicate NeverPassesAgain(start: Db, log: seq<Call>, order: string) {
    log == [] ||
    var last := |log| - 1;
    && NeverPassesAgain(start, log[..last], order)
    && match Replay(start, log[..last])
       case None => true
       case Some(d) => PassesReceipt(d, log[last], order) ==> Passed(start, log[..last], order) == 0
  }

  lemma {:induction false} PassesOnceExactlyWhen(start: Db, log: seq<Call>, order: string)
    ensures Passed(start, log, order) <= 1 <==> NeverPassesAgain(start, log, order)
  {
    if log != [] {
      PassesOnceExactlyWhen(start, log[..|log| - 1], order);
    }
  }

  /** In every interleaving an order gains one deduction row for each receipt of it that passed, that is,
      was committed with credit as a non-test order, and none for any other: not when the credit failed,
      not as a test order, not when the limit turned it away.  It gains at most one if and only if no
      receipt of it passes after one has passed. */
  lemma DeductionsArePasses(start: Db, events: seq<Event>, s: State, order: string)
    requires Numbered(start) && Run(Start(start), events, s)
    ensures Deductions(s.db, order) == Deductions(start, order) + Passed(start, s.log, order)
    ensures Deductions(s.db, order) <= Deductions(start, order) + 1 <==> NeverPassesAgain(start, s.log, order)
  {
    EveryInterleavingIsSerial(start, events, s);
    ReplayDeductions(start, s.log, order);
    PassesOnceExactlyWhen(start, s.log, order);
  }

  // ---------------------------------------------------------------- the check made at the beginning

  predicate Awaits(db: Db, order: string) {
    order in db.orders && db.orders[order].status == AwaitingPayment
  }

  /** The order is there and past awaiting payment. */
  predicate Past(db: Db, order: string) {
    order in db.orders && db.orders[order].status != AwaitingPayment
  }

  predicate Submits(call: Call, order: string) {
    call.CReceipt? && call.order == order
  }

  ghost function SubmitsOf(order: string): Tx -> int {
    (tx: Tx) => if Submits(tx.call, order) then 1 else 0
  }

  /** Submissions of the order that have begun and not ended. */
  ghost function InFlight(s: State, order: string): int {
    Total(s.txs, SubmitsOf(order))
  }

  /** Every submission of the order began while it awaited payment. */
  ghost predicate BegunAwaiting(order: string, from: State, events: seq<Event>)
    decreases |events|
  {
    events == [] ||
    var last := |events| - 1;
    && BegunAwaiting(order, from, events[..last])
    && match Play(from, events[..last])
       case None => true
       case Some(mid) => events[last].Begin? && Submits(events[last].call, order) ==> Awaits(mid.db, order)
  }

  /** At no time are more than `k` submissions of the order in flight. */
  ghost predicate AtMostInFlight(k: int, order: string, from: State, events: seq<Event>)
    decreases |events|
  {
    && (events != [] ==> AtMostInFlight(k, order, from, events[..|events| - 1]))
    && match Play(from, events) case None => true case Some(s) => InFlight(s, order) <= k
  }

  function One(b: bool): int {
    if b then 1 else 0
  }

  lemma SubmittedMore(log: seq<Call>, call: Call, order: string)
    ensures Submitted(log + [call], order) == Submitted(log, order) + One(Submits(call, order))
  {
    assert (log + [call])[..|log|] == log;
  }

  /** What one event adds to the submissions committed and in flight. */
  lemma FireSubmits(start: Db, s: State, e: Event, order: string)
    requires Inv(start, s) && Enabled(s, e)
    ensures var next := Fire(s, e);
            Submitted(next.log, order) + InFlight(next, order)
            <= Submitted(s.log, order) + InFlight(s, order) + One(e.Begin? && Submits(e.call, order))
  {
    var f := SubmitsOf(order);
    match e
    case Begin(t, call) => TotalPut(s.txs, f, t, Tx(call, 0, IDLE));
    case Advance(t) =>
      if t in Fire(s, e).txs {
        TotalPut(s.txs, f, t, Fire(s, e).txs[t]);
      } else {
        TotalWithout(s.txs, f, t);
      }
    case Commit(t) =>
      TotalWithout(s.txs, f, t);
      SubmittedMore(s.log, s.txs[t].call, order);
    case Abort(t) => TotalWithout(s.txs, f, t);
    case Auto(call) => SubmittedMore(s.log, call, order);
  }

  /** A committed submission takes the order past awaiting payment, and nothing brings it back. */
  lemma FireMovesOn(start: Db, s: State, e: Event, order: string)
    requires Inv(start, s) && Enabled(s, e)
    ensures Past(s.db, order) ==> Past(Fire(s, e).db, order)
    ensures Submitted(Fire(s, e).log, order) != Submitted(s.log, order) ==> Past(Fire(s, e).db, order)
    ensures !e.Commit? && !e.Auto? ==> Fire(s, e).db == s.db && Fire(s, e).log == s.log
  {
    match e
    case Commit(t) =>
      FireCommit(start, s, t);
      SubmittedMore(s.log, s.txs[t].call, order);
      if Past(s.db, order) || Submits(s.txs[t].call, order) {
        SpecLeavesAwaiting(s.db, s.txs[t].call, order);
      }
    case Auto(call) =>
      FireAuto(start, s, call);
      SubmittedMore(s.log, call, order);
      if Past(s.db, order) {
        SpecLeavesAwaiting(s.db, call, order);
      }
    case _ =>
  }

  /** Until the first submission commits none has; from then on nothing new begins. */
  ghost predicate Bounded(s: State, order: string, k: int) {
    if Past(s.db, order) then Submitted(s.log, order) + InFlight(s, order) <= k else Submitted(s.log, order) == 0
  }

  lemma FireStaysBounded(start: Db, s: State, e: Event, order: string, k: int)
    requires Inv(start, s) && Enabled(s, e) && Bounded(s, order, k) && InFlight(s, order) <= k
    requires e.Begin? && Submits(e.call, order) ==> Awaits(s.db, order)
    ensures Bounded(Fire(s, e), order, k)
  {
    FireSubmits(start, s, e, order);
    FireMovesOn(start, s, e, order);
  }

  lemma {:induction false} RunStaysBounded(start: Db, from: State, events: seq<Event>, s: State, order: string, k: int)
    requires Inv(start, from) && Run(from, events, s) && Bounded(from, order, k)
    requires BegunAwaiting(order, from, events) && AtMostInFlight(k, order, from, events)
    ensures Bounded(s, order, k)
    decreases |events|
  {
    if events != [] {
      var last := |events| - 1;
      var mid := Play(from, events[..last]).value;
      RunStaysBounded(start, from, events[..last], mid, order, k);
      RunKeeps(start, from, events[..last], mid);
      assert AtMostInFlight(k, order, from, events[..last]);
      FireStaysBounded(start, mid, events[last], order, k);
    }
  }

  lemma {:induction false} PassedAreSubmitted(start: Db, log: seq<Call>, order: string)
    ensures Passed(start, log, order) <= Submitted(log, order)
  {
    if log != [] {
      PassedAreSubmitted(start, log[..|log| - 1], order);
    }
  }

  /** With every submission of the order begun while it awaited payment and at most `k` of them in flight
      at any time, at most `k` of them commit and the order gains at most `k` deduction rows, in any
      interleaving.  One at a time means at most one deduction. */
  lemma DeductionLimit(start: Db, events: seq<Event>, s: State, order: string, k: nat)
    requires Numbered(start) && Run(Start(start), events, s)
    requires BegunAwaiting(order, Start(start), events) && AtMostInFlight(k, order, Start(start), events)
    ensures Submitted(s.log, order) <= k
    ensures Deductions(s.db, order) <= Deductions(start, order) + k
  {
    RunStaysBounded(start, Start(start), events, s, order, k);
    TotalAtLeast(s.txs, SubmitsOf(order));
    DeductionsArePasses(start, events, s, order);
    PassedAreSubmitted(start, s.log, order);
  }

  // ---------------------------------------------------------------- orders paid from the wallet

  /** Whoever submitted the order, or is about to, found it unpaid. */
  ghost predicate NotFromWallet(s: State, order: string) {
    && WalletOrdersSettled(s.db)
    && (Submitted(s.log, order) > 0 || (exists t :: t in s.txs && Submits(s.txs[t].call, order)) ==>
          order in s.db.orders && !s.db.orders[order].fromWallet)
  }

  lemma FireKeepsUnpaid(start: Db, s: State, e: Event, order: string)
    requires Inv(start, s) && Enabled(s, e) && NotFromWallet(s, order)
    requires e.Begin? && Submits(e.call, order) ==> Awaits(s.db, order)
    ensures NotFromWallet(Fire(s, e), order)
  {
    match e
    case Commit(t) =>
      FireCommit(start, s, t);
      CallKeepsUnpaid(s.db, s.txs[t].call, order);
      SubmittedMore(s.log, s.txs[t].call, order);
    case Auto(call) =>
      FireAuto(start, s, call);
      CallKeepsUnpaid(s.db, call, order);
      SubmittedMore(s.log, call, order);
    case _ => FireMovesOn(start, s, e, order);
  }

  lemma CallKeepsUnpaid(db: Db, call: Call, order: string)
    requires WalletOrdersSettled(db) && call.Valid() && Spec(db, call).Some?
    ensures WalletOrdersSettled(Spec(db, call).value)
    ensures order in db.orders && !db.orders[order].fromWallet ==>
              order in Spec(db, call).value.orders && !Spec(db, call).value.orders[order].fromWallet
  {
    SpecSettles(db, call);
    SpecGrows(db, call);
    if order in db.orders {
      assert SameOrder(db.orders[order], Spec(db, call).value.orders[order]);
    }
  }

  lemma {:induction false} RunKeepsUnpaid(start: Db, from: State, events: seq<Event>, s: State, order: string)
    requires Inv(start, from) && Run(from, events, s) && NotFromWallet(from, order)
    requires BegunAwaiting(order, from, events)
    ensures NotFromWallet(s, order)
    decreases |events|
  {
    if events != [] {
      var last := |events| - 1;
      var mid := Play(from, events[..last]).value;
      RunKeepsUnpaid(start, from, events[..last], mid, order);
      RunKeeps(start, from, events[..last], mid);
      FireKeepsUnpaid(start, mid, events[last], order);
    }
  }

  /** An order paid from the wallet is never submitted and never deducted, however many submissions are
      in flight, as long as each began while its order awaited payment. */
  lemma WalletOrdersNeverPass(start: Db, events: seq<Event>, s: State, order: string)
    requires Numbered(start) && WalletOrdersSettled(start) && Run(Start(start), events, s)
    requires BegunAwaiting(order, Start(start), events)
    requires order in s.db.orders && s.db.orders[order].fromWallet
    ensures Submitted(s.log, order) == 0
    ensures Deductions(s.db, order) == Deductions(start, order)
  {
    RunKeepsUnpaid(start, Start(start), events, s, order);
    DeductionsArePasses(start, events, s, order);
    PassedAreSubmitted(start, s.log, order);
  }
}
