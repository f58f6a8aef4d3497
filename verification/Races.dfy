/** Checks that are made before a transaction opens and not again inside it, and what two of them in
    flight together do: a customer's top-up is credited twice, an order's commission is deducted twice. */
module Races {
  import opened Money
  import opened Schema
  import opened Settlement
  import opened Totals
  import opened Machine
  import opened Serial
  import opened CommissionWallet
  import opened Submissions
  import Solo

  // ---------------------------------------------------------------- runs, piece by piece

  /** One event more. */
  lemma RunMore(from: State, events: seq<Event>, s: State, e: Event) returns (more: seq<Event>, next: State)
    requires Run(from, events, s) && Enabled(s, e)
    ensures more == events + [e] && next == Fire(s, e) && Run(from, more, next)
  {
    more, next := events + [e], Fire(s, e);
    assert more[..|more| - 1] == events;
  }

  /** Nothing begins in what was added. */
  predicate Quiet(events: seq<Event>, more: seq<Event>) {
    events <= more && forall i :: |events| <= i < |more| ==> !more[i].Begin?
  }

  /** Transaction `t` has not started and nobody holds a row. */
  ghost predicate Waits(s: State, t: int) {
    && t in s.txs && s.txs[t] == Tx(s.txs[t].call, 0, IDLE) && s.txs[t].call.Valid() && !s.txs[t].call.Single()
    && forall u :: u in s.txs ==> s.txs[u].local.held == {}
  }

  /** The state with `n` statements of `t` done. */
  ghost function After(s: State, t: int, n: nat): State
    requires t in s.txs
  {
    s.(txs := s.txs[t := Tx(s.txs[t].call, n, Exec(s.txs[t].call, s.db, n))])
  }

  lemma StepAlone(s: State, t: int, n: nat)
    requires Waits(s, t) && Exec(s.txs[t].call, s.db, n).phase.At?
    requires !Exec(s.txs[t].call, s.db, n + 1).phase.Dead?
    ensures Enabled(After(s, t, n), Advance(t)) && Fire(After(s, t, n), Advance(t)) == After(s, t, n + 1)
  {
  }

  /** The call's `m` statements all go through, and then it is ready to commit. */
  ghost predicate GoesThrough(call: Call, db: Db, m: nat) {
    (forall n :: 0 <= n < m ==> Exec(call, db, n).phase.At?) && Exec(call, db, m).phase.Ready?
  }

  lemma OneStep(from: State, events: seq<Event>, s: State, t: int, n: nat, next: nat) returns (more: seq<Event>)
    requires next == n + 1 && Waits(s, t) && Run(from, events, After(s, t, n))
    requires Exec(s.txs[t].call, s.db, n).phase.At? && !Exec(s.txs[t].call, s.db, next).phase.Dead?
    ensures more == events + [Advance(t)] && Run(from, more, After(s, t, next))
  {
    StepAlone(s, t, n);
    var there: State;
    more, there := RunMore(from, events, After(s, t, n), Advance(t));
  }

  lemma NothingDone(from: State, events: seq<Event>, s: State, t: int)
    requires Run(from, events, s) && Waits(s, t)
    ensures Run(from, events, After(s, t, 0))
  {
    assert After(s, t, 0) == s;
  }

  /** It runs up to its `n`-th statement. */
  lemma {:induction false} GetsTo(from: State, events: seq<Event>, s: State, t: int, m: nat, n: nat)
    returns (more: seq<Event>)
    requires Run(from, events, s) && Waits(s, t) && GoesThrough(s.txs[t].call, s.db, m) && n <= m
    ensures Quiet(events, more) && Run(from, more, After(s, t, n))
  {
    if n == 0 {
      NothingDone(from, events, s, t);
      more := events;
    } else {
      var before := GetsTo(from, events, s, t, m, n - 1);
      more := GetsOn(from, before, s, t, m, n - 1, n);
      QuietMore(events, before, Advance(t));
    }
  }

  lemma GetsOn(from: State, events: seq<Event>, s: State, t: int, m: nat, n: nat, next: nat) returns (more: seq<Event>)
    requires next == n + 1 <= m && Waits(s, t) && GoesThrough(s.txs[t].call, s.db, m)
    requires Run(from, events, After(s, t, n))
    ensures more == events + [Advance(t)] && Run(from, more, After(s, t, next))
  {
    assert Exec(s.txs[t].call, s.db, n).phase.At?;
    assert !Exec(s.txs[t].call, s.db, next).phase.Dead?;
    more := OneStep(from, events, s, t, n, next);
  }

  lemma QuietMore(events: seq<Event>, more: seq<Event>, e: Event)
    requires Quiet(events, more) && !e.Begin?
    ensures Quiet(events, more + [e])
  {
  }

  /** While nobody else holds a row, a transaction that nothing refuses runs through. */
  lemma RunsThrough(from: State, events: seq<Event>, s: State, t: int, m: nat) returns (more: seq<Event>, next: State)
    requires Run(from, events, s) && Waits(s, t) && GoesThrough(s.txs[t].call, s.db, m)
    ensures Quiet(events, more) && Run(from, more, next)
    ensures next.txs == s.txs - {t} && Spec(s.db, s.txs[t].call) == Some(next.db)
    ensures next.log == s.log + [s.txs[t].call]
  {
    more := GetsTo(from, events, s, t, m, m);
    Solo.SoloMeetsSpec(s.txs[t].call, s.db, m);
    more, next := RunMore(from, more, After(s, t, m), Commit(t));
    assert next.txs == s.txs - {t};
  }

  /** Two transactions begin. */
  lemma BothBegin(db: Db, one: Call, two: Call) returns (events: seq<Event>, s: State)
    requires !one.Single() && one.Valid() && Matches(db, one)
    requires !two.Single() && two.Valid() && Matches(db, two)
    ensures events == [Begin(1, one), Begin(2, two)] && Run(Start(db), events, s)
    ensures s == State(db, map[1 := Tx(one, 0, IDLE), 2 := Tx(two, 0, IDLE)], [])
  {
    events, s := RunMore(Start(db), [], Start(db), Begin(1, one));
    events, s := RunMore(Start(db), events, s, Begin(2, two));
  }

  /** Both begin before either commits; then both commit. */
  lemma BothCommit(db: Db, one: Call, two: Call, m: nat) returns (events: seq<Event>, s: State)
    requires !one.Single() && one.Valid() && Matches(db, one) && GoesThrough(one, db, m)
    requires !two.Single() && two.Valid() && Matches(db, two)
    requires Spec(db, one).Some? && GoesThrough(two, Spec(db, one).value, m)
    ensures Quiet([Begin(1, one), Begin(2, two)], events) && Run(Start(db), events, s)
    ensures Spec(Spec(db, one).value, two) == Some(s.db)
  {
    var begun, pair := BothBegin(db, one, two);
    var mid: State;
    events, mid := RunsThrough(Start(db), begun, pair, 1, m);
    events, s := RunsThrough(Start(db), events, mid, 2, m);
  }

  // ---------------------------------------------------------------- a top-up credited twice

  /** Every confirmation found its top-up pending when it began. */
  ghost predicate FoundPending(from: State, events: seq<Event>)
    decreases |events|
  {
    events == [] ||
    var last := |events| - 1;
    && FoundPending(from, events[..last])
    && match Play(from, events[..last])
       case None => true
       case Some(mid) =>
         events[last].Begin? && events[last].call.CCredit? && events[last].call.topup in mid.db.topups
         ==> mid.db.topups[events[last].call.topup].status == TopupPending
  }

  lemma {:induction false} QuietKeepsPending(from: State, events: seq<Event>, more: seq<Event>)
    requires Quiet(events, more) && FoundPending(from, events)
    ensures FoundPending(from, more)
    decreases |more|
  {
    if |more| > |events| {
      QuietKeepsPending(from, events, more[..|more| - 1]);
    } else {
      assert more == events;
    }
  }

  /** With enough credit, four statements. */
  lemma CreditRunsOn(db: Db, call: Call)
    requires call.CCredit? && call.customer in db.customers && call.topup in db.topups
    requires Deduct(db.resellers, db.ledger, call.reseller, call.amount, ForTopup(call.topup), call.row).Deducted?
    ensures GoesThrough(call, db, 4)
  {
    var n := 0;
    while n < 4
      invariant 0 <= n <= 4 && Exec(call, db, n).phase == (if n < 4 then At(n) else Ready) && !Exec(call, db, n).short
      invariant forall i :: 0 <= i < n ==> Exec(call, db, i).phase.At?
    {
      CreditStepsOn(db, call, n);
      n := n + 1;
    }
  }

  lemma CreditStepsOn(db: Db, call: Call, n: nat)
    requires n < 4 && call.CCredit? && call.customer in db.customers && call.topup in db.topups
    requires Deduct(db.resellers, db.ledger, call.reseller, call.amount, ForTopup(call.topup), call.row).Deducted?
    requires Exec(call, db, n).phase == At(n) && !Exec(call, db, n).short
    ensures Exec(call, db, n + 1).phase == (if n < 3 then At(n + 1) else Ready) && !Exec(call, db, n + 1).short
  {
    assert Exec(call, db, n + 1) == Step(call, db, Exec(call, db, n));
  }

  const SHOP := Db(
    map[1 := Reseller(0, 0, 0, false, 0, 0, "AR")], map[], map[1 := Customer(1, 5, 0)], map[], map[], map[], 0, map[],
    map[7 := Topup(1, 1, 100, TopupPending, false)], map[], [])

  /** What a confirmation with enough credit does to the customer and the top-up. */
  lemma CreditEffect(db: Db, call: Call)
    requires call.CCredit? && call.customer in db.customers && call.topup in db.topups
    requires Deduct(db.resellers, db.ledger, call.reseller, call.amount, ForTopup(call.topup), call.row).Deducted?
    ensures Spec(db, call).Some?
    ensures var d := Spec(db, call).value;
            && call.customer in d.customers
            && d.customers[call.customer].balance == db.customers[call.customer].balance + call.paid
            && d.topups == db.topups[call.topup := db.topups[call.topup].(status := TopupConfirmed, credited := true)]
            && d.customers.Keys == db.customers.Keys && d.orders == db.orders
            && Deducted(d.resellers, d.ledger)
               == Deduct(db.resellers, db.ledger, call.reseller, call.amount, ForTopup(call.topup), call.row)
  {
  }

  /** Two administrators confirm top-up 7, worth 100, at the same time; both find it pending, and the
      wallet ends at 200. */
  lemma RaceCreditsTwice() returns (events: seq<Event>, s: State)
    ensures Run(Start(SHOP), events, s) && FoundPending(Start(SHOP), events)
    ensures 7 in s.db.topups && s.db.topups[7].amount == 100
    ensures 1 in s.db.customers && s.db.customers[1].balance == 200
  {
    var one := CCredit(7, 1, 1, 100, 0, 1);
    var two := CCredit(7, 1, 1, 100, 0, 2);
    var between := Credit(SHOP, one);
    var both := Credit(between, two);
    events, s := BothCommit(SHOP, one, two, 4);
    BothFoundPending([Begin(1, one), Begin(2, two)], one, two);
    QuietKeepsPending(Start(SHOP), [Begin(1, one), Begin(2, two)], events);
  }

  /** One confirmation of top-up 7, without commission. */
  lemma Credit(db: Db, call: Call) returns (d: Db)
    requires call.CCredit? && call == CCredit(7, 1, 1, 100, 0, call.row) && call.row !in db.ledger
    requires 1 in db.customers && 7 in db.topups && db.topups[7].amount == 100
    requires 1 in db.resellers && db.resellers[1].balance == db.resellers[1].limit == 0
    ensures GoesThrough(call, db, 4) && Spec(db, call) == Some(d)
    ensures 1 in d.customers && d.customers[1].balance == db.customers[1].balance + 100
    ensures 7 in d.topups && d.topups[7].amount == 100
    ensures 1 in d.resellers && d.resellers[1].balance == d.resellers[1].limit == 0
    ensures d.ledger.Keys == db.ledger.Keys + {call.row}
  {
    CreditEffect(db, call);
    CreditRunsOn(db, call);
    d := Spec(db, call).value;
  }

  lemma BothFoundPending(begun: seq<Event>, one: Call, two: Call)
    requires one == CCredit(7, 1, 1, 100, 0, 1) && two == CCredit(7, 1, 1, 100, 0, 2)
    requires begun == [Begin(1, one), Begin(2, two)]
    ensures FoundPending(Start(SHOP), begun)
  {
    assert begun[..1] == [Begin(1, one)] && begun[..1][..0] == [];
    assert Play(Start(SHOP), begun[..1]) == Some(Fire(Start(SHOP), Begin(1, one)));
    assert FoundPending(Start(SHOP), begun[..1]);
  }

  // ---------------------------------------------------------------- a commission deducted twice

  lemma {:induction false} QuietKeepsAwaiting(order: string, from: State, events: seq<Event>, more: seq<Event>)
    requires Quiet(events, more) && BegunAwaiting(order, from, events)
    ensures BegunAwaiting(order, from, more)
    decreases |more|
  {
    if |more| > |events| {
      QuietKeepsAwaiting(order, from, events, more[..|more| - 1]);
    } else {
      assert more == events;
    }
  }

  /** With enough credit, three statements. */
  lemma ReceiptRunsOn(db: Db, call: Call)
    requires call.CReceipt? && PassesReceipt(db, call, call.order)
    ensures GoesThrough(call, db, 3)
  {
    assert Exec(call, db, 0) == IDLE;
    assert Exec(call, db, 1) == Step(call, db, Exec(call, db, 0));
    assert Exec(call, db, 1).phase == At(1);
    assert Exec(call, db, 2) == Step(call, db, Exec(call, db, 1));
    assert Exec(call, db, 2).phase == At(2);
    assert Exec(call, db, 3) == Step(call, db, Exec(call, db, 2));
  }

  const PHOTOS := Db(
    map[1 := Reseller(100, 0, 1000, false, 0, 0, "AR")], map[], map[1 := Customer(1, 5, 0)], map[], map[], map[], 0,
    map["A" := Order(1, 4, 1, AwaitingPayment, false, 100, 0, false, false, None, false)], map[], map[], [])

  /** What a passing receipt does to the wallet, the ledger and the order. */
  lemma ReceiptEffect(db: Db, call: Call)
    requires call.CReceipt? && Matches(db, call) && PassesReceipt(db, call, call.order)
    ensures Spec(db, call).Some? && Matches(Spec(db, call).value, call)
    ensures Deducted(Spec(db, call).value.resellers, Spec(db, call).value.ledger)
            == Deduct(db.resellers, db.ledger, call.reseller, call.amount, ForOrder(call.order), call.row)
  {
  }

  /** The two photos of an album are two submissions of order "A", price 100 and commission 10.  Both
      find it awaiting payment; both deduct, and the balance falls from 100 to 80. */
  lemma RaceDeductsTwice() returns (events: seq<Event>, s: State)
    ensures Run(Start(PHOTOS), events, s) && BegunAwaiting("A", Start(PHOTOS), events)
    ensures Deductions(PHOTOS, "A") == 0 && Deductions(s.db, "A") == 2
    ensures 1 in s.db.resellers && s.db.resellers[1].balance == 80
  {
    var one := CReceipt("A", 1, 1, false, Commission(100, 1000), 1);
    var two := CReceipt("A", 1, 1, false, Commission(100, 1000), 2);
    var between := FirstPhoto(one);
    var both := SecondPhoto(between, two);
    events, s := BothCommit(PHOTOS, one, two, 3);
    BothFoundAwaiting([Begin(1, one), Begin(2, two)], one, two);
    QuietKeepsAwaiting("A", Start(PHOTOS), [Begin(1, one), Begin(2, two)], events);
  }

  lemma FirstPhoto(one: Call) returns (between: Db)
    requires one == CReceipt("A", 1, 1, false, Commission(100, 1000), 1)
    ensures GoesThrough(one, PHOTOS, 3) && Spec(PHOTOS, one) == Some(between)
    ensures between.resellers == map[1 := Reseller(90, 0, 1000, false, 0, 0, "AR")] && between.ledger.Keys == {1}
    ensures "A" in between.orders && between.orders["A"].customer == between.orders["A"].reseller == 1
    ensures Deductions(PHOTOS, "A") == 0 && Deductions(between, "A") == 1
  {
    assert PassesReceipt(PHOTOS, one, "A");
    ReceiptEffect(PHOTOS, one);
    ReceiptRunsOn(PHOTOS, one);
    SpecDeductions(PHOTOS, one, "A");
    between := Spec(PHOTOS, one).value;
  }

  lemma SecondPhoto(between: Db, two: Call) returns (both: Db)
    requires two == CReceipt("A", 1, 1, false, Commission(100, 1000), 2)
    requires between.resellers == map[1 := Reseller(90, 0, 1000, false, 0, 0, "AR")] && between.ledger.Keys == {1}
    requires "A" in between.orders && between.orders["A"].customer == between.orders["A"].reseller == 1
    ensures GoesThrough(two, between, 3) && Spec(between, two) == Some(both)
    ensures both.resellers == map[1 := Reseller(80, 0, 1000, false, 0, 0, "AR")]
    ensures Deductions(both, "A") == Deductions(between, "A") + 1
  {
    assert PassesReceipt(between, two, "A");
    ReceiptEffect(between, two);
    ReceiptRunsOn(between, two);
    SpecDeductions(between, two, "A");
    both := Spec(between, two).value;
  }

  lemma BothFoundAwaiting(begun: seq<Event>, one: Call, two: Call)
    requires one == CReceipt("A", 1, 1, false, Commission(100, 1000), 1)
    requires two == CReceipt("A", 1, 1, false, Commission(100, 1000), 2)
    requires begun == [Begin(1, one), Begin(2, two)]
    ensures BegunAwaiting("A", Start(PHOTOS), begun)
  {
    assert begun[..1] == [Begin(1, one)] && begun[..1][..0] == [];
    assert Play(Start(PHOTOS), begun[..1]) == Some(Fire(Start(PHOTOS), Begin(1, one)));
    assert BegunAwaiting("A", Start(PHOTOS), begun[..1]);
  }
}
