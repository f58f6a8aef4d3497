/** Which interleaved runs there are: every sequence of accepted calls is one, and two transactions that
    lock different rows can be anywhere in their statements at the same time. */
module Runs {
  import opened Schema
  import opened Settlement
  import opened Machine
  import opened Serial
  import opened Races
  import Solo

  // ---------------------------------------------------------------- an accepted call runs to its commit

  /** No transaction has a statement beyond this one. */
  function LastStatement(call: Call): (pc: nat) {
    if call.CPurchase? then |call.cart.codes| + 2 else 3
  }

  lemma PurchaseMovesOn(cart: Cart, db: Db, l: Local, pc: nat)
    requires cart.Valid() && l.phase == At(pc)
    ensures var next := PurchaseStep(cart, db, l, pc);
            && l.held <= next.held
            && (next.phase.At? ==> pc < next.phase.pc <= |cart.codes| + 2)
  {
    if pc >= 3 && pc - 3 < |cart.codes| {
      SellMovesOn(cart, db, l, pc - 3);
    }
  }

  lemma SellMovesOn(cart: Cart, db: Db, l: Local, i: nat)
    requires i < |cart.codes| && l.phase == At(i + 3)
    ensures var next := SellStep(cart, db, l, i);
            && l.held <= next.held
            && (next.phase.At? ==> next.phase.pc == i + 4 <= |cart.codes| + 2)
  {
  }

  /** A statement that does not fail moves on, and gives no row back. */
  lemma StepMovesOn(call: Call, db: Db, l: Local, next: Local)
    requires call.Valid() && !call.Single() && l.phase.At? && next == Step(call, db, l)
    ensures l.held <= next.held
    ensures next.phase.At? ==> l.phase.pc < next.phase.pc <= LastStatement(call)
  {
    match call
    case CPurchase(cart) => PurchaseMovesOn(cart, db, l, l.phase.pc);
    case CReceipt(_, _, _, _, _, _) =>
    case CCredit(_, _, _, _, _, _) =>
    case CRefund(_, _, _, _) =>
    case CConfirm(_) =>
  }

  /** Statement `n` of a transaction that runs alone, if it is accepted as a whole. */
  lemma AcceptedMovesOn(call: Call, db: Db, n: nat, next: nat)
    requires next == n + 1
    requires call.Valid() && !call.Single() && Exec(call, db, n).phase.At?
    ensures Exec(call, db, n).held <= Exec(call, db, next).held
    ensures Exec(call, db, next).phase.At? ==>
              Exec(call, db, n).phase.pc < Exec(call, db, next).phase.pc <= LastStatement(call)
    ensures Spec(db, call).Some? ==> !Exec(call, db, next).phase.Dead?
  {
    StepMovesOn(call, db, Exec(call, db, n), Exec(call, db, next));
    Solo.SoloMeetsSpec(call, db, next);
  }

  /** Run alone, a call that the specification accepts comes to its commit. */
  lemma AcceptedGoesThrough(call: Call, db: Db) returns (m: nat)
    requires call.Valid() && !call.Single() && Spec(db, call).Some?
    ensures GoesThrough(call, db, m)
  {
    m := GoesOn(call, db, 0, 0);
    forall n | 0 <= n < m
      ensures Exec(call, db, n).phase.At?
    {
      GoesIs(call, db, m, n);
    }
  }

  /** The first `n` statements did not end it. */
  ghost predicate Goes(call: Call, db: Db, n: nat) {
    n == 0 || (Goes(call, db, n - 1) && Exec(call, db, n - 1).phase.At?)
  }

  lemma {:induction false} GoesIs(call: Call, db: Db, n: nat, k: nat)
    requires Goes(call, db, n) && k < n
    ensures Exec(call, db, k).phase.At?
  {
    if k < n - 1 {
      GoesIs(call, db, n - 1, k);
    }
  }

  /** ... from whichever statement it has reached. */
  lemma {:induction false} GoesOn(call: Call, db: Db, n: nat, pc: nat) returns (m: nat)
    requires call.Valid() && !call.Single() && Spec(db, call).Some? && Goes(call, db, n)
    requires Exec(call, db, n).phase == At(pc) && pc <= LastStatement(call)
    ensures Goes(call, db, m) && Exec(call, db, m).phase.Ready?
    decreases LastStatement(call) - pc
  {
    m := n + 1;
    var phase := OneMoreDone(call, db, n, m, pc);
    if phase.At? {
      m := GoesOn(call, db, m, phase.pc);
    }
  }

  lemma OneMoreDone(call: Call, db: Db, n: nat, next: nat, pc: nat) returns (phase: Phase)
    requires next == n + 1 && call.Valid() && !call.Single() && Spec(db, call).Some? && Goes(call, db, n)
    requires Exec(call, db, n).phase == At(pc)
    ensures Goes(call, db, next) && phase == Exec(call, db, next).phase && !phase.Dead?
    ensures phase.At? ==> pc < phase.pc <= LastStatement(call)
  {
    AcceptedMovesOn(call, db, n, next);
    phase := Exec(call, db, next).phase;
  }

  /** Completeness.  Every sequence of valid calls, each accepted where its turn comes, is an interleaved run
      that commits exactly these calls and leaves what their replay leaves. */
  lemma {:induction false} EveryReplayIsARun(start: Db, log: seq<Call>) returns (events: seq<Event>, s: State)
    requires Replay(start, log).Some? && AllValid(log)
    ensures Run(Start(start), events, s)
    ensures s == State(Replay(start, log).value, map[], log)
    decreases |log|
  {
    if log == [] {
      return [], Start(start);
    }
    var last := |log| - 1;
    var call := log[last];
    var mid: State;
    events, mid := EveryReplayIsARun(start, log[..last]);
    assert log == log[..last] + [call];
    if call.Single() {
      events, s := RunMore(Start(start), events, mid, Auto(call));
    } else {
      var m := AcceptedGoesThrough(call, mid.db);
      events, mid := RunMore(Start(start), events, mid, Begin(0, call));
      events, s := RunsThrough(Start(start), events, mid, 0, m);
      assert s.txs == map[];
    }
  }

  // ---------------------------------------------------------------- two at the same time

  lemma {:induction false} HeldGrows(call: Call, db: Db, n: nat, m: nat)
    requires call.Valid() && !call.Single() && n <= m && forall k :: 0 <= k < m ==> Exec(call, db, k).phase.At?
    ensures Exec(call, db, n).held <= Exec(call, db, m).held
    decreases m - n
  {
    if n < m {
      var next := n + 1;
      AcceptedMovesOn(call, db, n, next);
      HeldGrows(call, db, next, m);
    }
  }

  /** Transaction 1 has done `n` statements of `one`, transaction 2 has done `k` of `two`. */
  ghost function Both(db: Db, one: Call, n: nat, two: Call, k: nat): State {
    Pair(db, Tx(one, n, Exec(one, db, n)), Tx(two, k, Exec(two, db, k)))
  }

  ghost function Pair(db: Db, one: Tx, two: Tx): State {
    State(db, map[1 := one, 2 := two], [])
  }

  lemma PairFirst(db: Db, one: Tx, two: Tx, l: Local)
    requires one.local.phase.At? && l == Step(one.call, db, one.local) && !l.phase.Dead? && l.held !! two.local.held
    ensures Enabled(Pair(db, one, two), Advance(1))
    ensures Fire(Pair(db, one, two), Advance(1)) == Pair(db, Tx(one.call, one.n + 1, l), two)
  {
  }

  lemma PairSecond(db: Db, one: Tx, two: Tx, l: Local)
    requires two.local.phase.At? && l == Step(two.call, db, two.local) && !l.phase.Dead? && one.local.held !! l.held
    ensures Enabled(Pair(db, one, two), Advance(2))
    ensures Fire(Pair(db, one, two), Advance(2)) == Pair(db, one, Tx(two.call, two.n + 1, l))
  {
  }

  lemma CommitFirst(db: Db, one: Tx, two: Tx)
    requires one.local.phase.Ready? && two.local.phase.Ready?
    ensures Enabled(Pair(db, one, two), Commit(1))
    ensures var s := Fire(Pair(db, one, two), Commit(1));
            s.txs == map[2 := two] && s.log == [one.call] && Enabled(s, Commit(2))
  {
  }

  lemma CommitSecond(db: Db, one: Tx, two: Tx)
    requires one.local.phase.Ready? && two.local.phase.Ready?
    ensures Enabled(Pair(db, one, two), Commit(2))
    ensures var s := Fire(Pair(db, one, two), Commit(2));
            s.txs == map[1 := one] && s.log == [two.call] && Enabled(s, Commit(1))
  {
  }

  lemma AdvanceOne(db: Db, one: Call, n: nat, next: nat, two: Call, k: nat)
    requires next == n + 1 && Exec(one, db, n).phase.At? && !Exec(one, db, next).phase.Dead?
    requires Exec(one, db, next).held !! Exec(two, db, k).held
    ensures var s := Both(db, one, n, two, k);
            Enabled(s, Advance(1)) && Fire(s, Advance(1)) == Both(db, one, next, two, k)
  {
    PairFirst(db, Tx(one, n, Exec(one, db, n)), Tx(two, k, Exec(two, db, k)), Exec(one, db, next));
  }

  lemma AdvanceTwo(db: Db, one: Call, n: nat, two: Call, k: nat, next: nat)
    requires next == k + 1 && Exec(two, db, k).phase.At? && !Exec(two, db, next).phase.Dead?
    requires Exec(one, db, n).held !! Exec(two, db, next).held
    ensures var s := Both(db, one, n, two, k);
            Enabled(s, Advance(2)) && Fire(s, Advance(2)) == Both(db, one, n, two, next)
  {
    PairSecond(db, Tx(one, n, Exec(one, db, n)), Tx(two, k, Exec(two, db, k)), Exec(two, db, next));
  }

  /** The two calls together: each is accepted alone, in `m` and in `q` statements, and in the end they hold
      different rows. */
  ghost predicate Apart(db: Db, one: Call, m: nat, two: Call, q: nat) {
    && !one.Single() && one.Valid() && Matches(db, one) && GoesThrough(one, db, m)
    && !two.Single() && two.Valid() && Matches(db, two) && GoesThrough(two, db, q)
    && Exec(one, db, m).held !! Exec(two, db, q).held
  }

  lemma ApartBefore(db: Db, one: Call, n: nat, m: nat, two: Call, k: nat, q: nat)
    requires Apart(db, one, m, two, q) && n <= m && k <= q
    ensures Exec(one, db, n).held !! Exec(two, db, k).held
  {
    HeldGrows(one, db, n, m);
    HeldGrows(two, db, k, q);
  }

  lemma GoesUntil(call: Call, db: Db, n: nat, m: nat)
    requires GoesThrough(call, db, m) && n <= m
    ensures if n < m then Exec(call, db, n).phase.At? else Exec(call, db, n).phase.Ready?
  {
  }

  /** Two transactions that in the end hold different rows do not wait for each other: any number of
      statements of the one and of the other can have been done at the same time. */
  lemma {:induction false} BothInTheMiddle(db: Db, one: Call, n: nat, m: nat, two: Call, k: nat, q: nat)
    returns (events: seq<Event>)
    requires Apart(db, one, m, two, q) && n <= m && k <= q
    ensures Run(Start(db), events, Both(db, one, n, two, k))
    decreases n + k
  {
    if k > 0 {
      events := BothInTheMiddle(db, one, n, m, two, k - 1, q);
      events := TwoGoesOn(db, one, n, m, two, k - 1, k, q, events);
    } else if n > 0 {
      events := BothInTheMiddle(db, one, n - 1, m, two, k, q);
      events := OneGoesOn(db, one, n - 1, n, m, two, k, q, events);
    } else {
      var s: State;
      events, s := BothBegin(db, one, two);
    }
  }

  lemma OneGoesOn(db: Db, one: Call, n: nat, next: nat, m: nat, two: Call, k: nat, q: nat, events: seq<Event>)
    returns (more: seq<Event>)
    requires Apart(db, one, m, two, q) && next == n + 1 <= m && k <= q
    requires Run(Start(db), events, Both(db, one, n, two, k))
    ensures Run(Start(db), more, Both(db, one, next, two, k))
  {
    GoesUntil(one, db, n, m);
    GoesUntil(one, db, next, m);
    ApartBefore(db, one, next, m, two, k, q);
    AdvanceOne(db, one, n, next, two, k);
    var s: State;
    more, s := RunMore(Start(db), events, Both(db, one, n, two, k), Advance(1));
  }

  lemma TwoGoesOn(db: Db, one: Call, n: nat, m: nat, two: Call, k: nat, next: nat, q: nat, events: seq<Event>)
    returns (more: seq<Event>)
    requires Apart(db, one, m, two, q) && next == k + 1 <= q && n <= m
    requires Run(Start(db), events, Both(db, one, n, two, k))
    ensures Run(Start(db), more, Both(db, one, n, two, next))
  {
    GoesUntil(two, db, k, q);
    GoesUntil(two, db, next, q);
    ApartBefore(db, one, n, m, two, next, q);
    AdvanceTwo(db, one, n, two, k, next);
    var s: State;
    more, s := RunMore(Start(db), events, Both(db, one, n, two, k), Advance(2));
  }

  /** ... and then both commit, in either order. */
  lemma BothCommitEitherWay(db: Db, one: Call, m: nat, two: Call, q: nat, oneFirst: bool)
    returns (events: seq<Event>, s: State)
    requires Apart(db, one, m, two, q)
    ensures Run(Start(db), events, s) && s.txs == map[]
    ensures s.log == if oneFirst then [one, two] else [two, one]
  {
    events := BothInTheMiddle(db, one, m, m, two, q, q);
    GoesUntil(one, db, m, m);
    GoesUntil(two, db, q, q);
    events, s := PairEnds(db, events, Tx(one, m, Exec(one, db, m)), Tx(two, q, Exec(two, db, q)), oneFirst);
  }

  lemma PairEnds(db: Db, events: seq<Event>, one: Tx, two: Tx, oneFirst: bool) returns (more: seq<Event>, s: State)
    requires Run(Start(db), events, Pair(db, one, two)) && one.local.phase.Ready? && two.local.phase.Ready?
    ensures Run(Start(db), more, s) && s.txs == map[]
    ensures s.log == if oneFirst then [one.call, two.call] else [two.call, one.call]
  {
    var first, second := if oneFirst then 1 else 2, if oneFirst then 2 else 1;
    if oneFirst {
      CommitFirst(db, one, two);
    } else {
      CommitSecond(db, one, two);
    }
    more, s := RunMore(Start(db), events, Pair(db, one, two), Commit(first));
    more, s := RunMore(Start(db), more, s, Commit(second));
  }
}
