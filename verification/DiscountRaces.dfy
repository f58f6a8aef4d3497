/** Several applications of discount codes at once.  The handler reads the order's price, checks the code,
    writes the price and counts the use in four statements, each committed on its own. */
module DiscountRaces {
  import opened Schema
  import opened Totals
  import opened Discounts
  import opened DiscountService

  /** Where an application stands: it has read the price; the code was accepted; the price is written. */
  datatype App =
    | Fetched(order: string, price: int)
    | Checked(order: string, price: int, key: Key, percent: int)
    | Written(key: Key)

  datatype Desk = Desk(rows: map<Key, Discount>, prices: map<string, int>, apps: map<int, App>)

  datatype Act =
    | Fetch(t: int, order: string)
    | Check(t: int, key: Key, now: int)
    | Write(t: int)
    | Count(t: int)
    | Abandon(t: int)

  function Move(desk: Desk, act: Act): (next: Option<Desk>) {
    match act
    case Fetch(t, order) =>
      if t in desk.apps || order !in desk.prices then None
      else Some(desk.(apps := desk.apps[t := Fetched(order, desk.prices[order])]))
    case Check(t, key, now) =>
      if t !in desk.apps || !desk.apps[t].Fetched? then None
      else
        var app := desk.apps[t];
        var verdict := Judge(desk.rows, key, now);
        if !verdict.Accepted? then Some(desk.(apps := desk.apps - {t}))
        else Some(desk.(apps := desk.apps[t := Checked(app.order, app.price, key, verdict.discount.percent)]))
    case Write(t) =>
      if t !in desk.apps || !desk.apps[t].Checked? then None
      else
        var app := desk.apps[t];
        Some(desk.(prices := desk.prices[app.order := TOMAN * ApplyDiscount(app.price, app.percent)],
                   apps := desk.apps[t := Written(app.key)]))
    case Count(t) =>
      if t !in desk.apps || !desk.apps[t].Written? then None
      else Some(desk.(rows := Counted(desk.rows, desk.apps[t].key), apps := desk.apps - {t}))
    case Abandon(t) => if t !in desk.apps then None else Some(desk.(apps := desk.apps - {t}))
  }

  function Moves(desk: Desk, acts: seq<Act>): (next: Option<Desk>) {
    if acts == [] then Some(desk)
    else
      match Moves(desk, acts[..|acts| - 1])
      case None => None
      case Some(mid) => Move(mid, acts[|acts| - 1])
  }

  // ---------------------------------------------------------------- the usage limit

  ghost function FlyingFor(key: Key): App -> int {
    (app: App) => if (app.Checked? || app.Written?) && app.key == key then 1 else 0
  }

  /** Applications of the code past the check and not counted yet. */
  ghost function Flying(desk: Desk, key: Key): int {
    Total(desk.apps, FlyingFor(key))
  }

  /** At no time are more than `k` applications of the code in flight. */
  ghost predicate FlyingAtMost(k: int, key: Key, desk: Desk, acts: seq<Act>) {
    && (acts != [] ==> FlyingAtMost(k, key, desk, acts[..|acts| - 1]))
    && match Moves(desk, acts) case None => true case Some(d) => Flying(d, key) <= k
  }

  /** Only an accepted check adds to "used or in flight", and it is accepted only below the limit. */
  lemma MoveCounts(desk: Desk, act: Act, key: Key)
    requires key in desk.rows && Move(desk, act).Some?
    ensures var d := Move(desk, act).value;
            && key in d.rows && d.rows[key] == desk.rows[key].(used := d.rows[key].used)
            && (d.rows[key].used + Flying(d, key) <= desk.rows[key].used + Flying(desk, key)
                || (d.rows == desk.rows && !desk.rows[key].UsedUp()))
  {
    var d := Move(desk, act).value;
    match act
    case Fetch(t, order) => TotalPut(desk.apps, FlyingFor(key), t, d.apps[t]);
    case Check(t, k, now) =>
      if Judge(desk.rows, k, now).Accepted? {
        TotalPut(desk.apps, FlyingFor(key), t, d.apps[t]);
      } else {
        TotalWithout(desk.apps, FlyingFor(key), t);
      }
    case Write(t) => TotalPut(desk.apps, FlyingFor(key), t, d.apps[t]);
    case Count(t) => TotalWithout(desk.apps, FlyingFor(key), t);
    case Abandon(t) => TotalWithout(desk.apps, FlyingFor(key), t);
  }

  lemma {:induction false} RunCounts(desk: Desk, acts: seq<Act>, key: Key, k: int)
    requires key in desk.rows && desk.rows[key].limit != 0
    requires Moves(desk, acts).Some? && FlyingAtMost(k, key, desk, acts)
    requires desk.rows[key].used + Flying(desk, key) <= desk.rows[key].limit + k - 1
    ensures var d := Moves(desk, acts).value;
            && key in d.rows && d.rows[key].limit == desk.rows[key].limit
            && d.rows[key].used + Flying(d, key) <= desk.rows[key].limit + k - 1
  {
    if acts != [] {
      var mid := Moves(desk, acts[..|acts| - 1]).value;
      RunCounts(desk, acts[..|acts| - 1], key, k);
      MoveCounts(mid, acts[|acts| - 1], key);
    }
  }

  /** However the applications of all codes interleave, a code with a limit is never counted more than
      k - 1 times beyond it, when at most k applications of it are in flight at any time. */
  lemma UsageLimit(desk: Desk, acts: seq<Act>, key: Key, k: nat)
    requires key in desk.rows && desk.rows[key].limit != 0 && desk.rows[key].used <= desk.rows[key].limit
    requires desk.apps == map[] && k >= 1
    requires Moves(desk, acts).Some? && FlyingAtMost(k, key, desk, acts)
    ensures var d := Moves(desk, acts).value;
            key in d.rows && d.rows[key].used <= desk.rows[key].limit + k - 1
  {
    RunCounts(desk, acts, key, k);
    TotalAtLeast(Moves(desk, acts).value.apps, FlyingFor(key));
  }

  // ---------------------------------------------------------------- the price

  /** The percents written on the order, in the order of the writes. */
  function PercentsOn(desk: Desk, acts: seq<Act>, order: string): (percents: seq<int>) {
    if acts == [] then []
    else
      var early := acts[..|acts| - 1];
      PercentsOn(desk, early, order) +
      match Moves(desk, early)
      case None => []
      case Some(mid) => if WritesOn(mid, acts[|acts| - 1], order) then [mid.apps[acts[|acts| - 1].t].percent] else []
  }

  predicate WritesOn(desk: Desk, act: Act, order: string) {
    act.Write? && act.t in desk.apps && desk.apps[act.t].Checked? && desk.apps[act.t].order == order
  }

  /** The write on the order gives what it would give from the price as it is now. */
  predicate FitsNow(desk: Desk, act: Act, order: string) {
    WritesOn(desk, act, order) && order in desk.prices ==>
      var app := desk.apps[act.t];
      ApplyDiscount(app.price, app.percent) == ApplyDiscount(desk.prices[order], app.percent)
  }

  /** The write on the order finds the price it read. */
  predicate FoundAsRead(desk: Desk, act: Act, order: string) {
    WritesOn(desk, act, order) && order in desk.prices ==> desk.apps[act.t].price == desk.prices[order]
  }

  ghost predicate AllFit(desk: Desk, acts: seq<Act>, order: string) {
    acts == [] ||
    var early := acts[..|acts| - 1];
    && AllFit(desk, early, order)
    && match Moves(desk, early) case None => true case Some(mid) => FitsNow(mid, acts[|acts| - 1], order)
  }

  ghost predicate NothingLost(desk: Desk, acts: seq<Act>, order: string) {
    acts == [] ||
    var early := acts[..|acts| - 1];
    && NothingLost(desk, early, order)
    && match Moves(desk, early) case None => true case Some(mid) => FoundAsRead(mid, acts[|acts| - 1], order)
  }

  /** At every point of the run the order's price is the stack of the percents written on it so far. */
  ghost predicate StacksThroughout(desk: Desk, acts: seq<Act>, order: string, tomans: int) {
    && (acts != [] ==> StacksThroughout(desk, acts[..|acts| - 1], order, tomans))
    && match Moves(desk, acts)
       case None => true
       case Some(d) => order in d.prices && d.prices[order] == TOMAN * Stacked(tomans, PercentsOn(desk, acts, order))
  }

  lemma OneMovePrice(desk: Desk, act: Act, order: string)
    requires Move(desk, act).Some? && order in desk.prices
    ensures order in Move(desk, act).value.prices
    ensures Move(desk, act).value.prices[order] ==
            if WritesOn(desk, act, order)
            then TOMAN * ApplyDiscount(desk.apps[act.t].price, desk.apps[act.t].percent) else desk.prices[order]
  {
  }

  /** Codes applied to one order stack throughout, in an interleaving of any applications, if and only if
      every write gives what it would give from the price as it is then; in particular when every write
      finds the price it read. */
  lemma {:induction false} StacksExactlyWhen(desk: Desk, acts: seq<Act>, order: string, tomans: int)
    requires order in desk.prices && desk.prices[order] == TOMAN * tomans && Moves(desk, acts).Some?
    ensures StacksThroughout(desk, acts, order, tomans) <==> AllFit(desk, acts, order)
    ensures NothingLost(desk, acts, order) ==> AllFit(desk, acts, order)
    ensures order in Moves(desk, acts).value.prices
  {
    if acts != [] {
      var early, act := acts[..|acts| - 1], acts[|acts| - 1];
      var mid := Moves(desk, early).value;
      StacksExactlyWhen(desk, early, order, tomans);
      OneMovePrice(mid, act, order);
      var before := PercentsOn(desk, early, order);
      if WritesOn(mid, act, order) {
        var more := before + [mid.apps[act.t].percent];
        assert more[..|more| - 1] == before;
        assert PercentsOn(desk, acts, order) == more;
      } else {
        assert PercentsOn(desk, acts, order) == before;
      }
    }
  }

  // ---------------------------------------------------------------- a race

  /** The applications n..k, all at the same point. */
  function Waiting(app: App, n: nat, k: nat): (apps: map<int, App>) {
    if n >= k then map[] else Waiting(app, n, k - 1)[k - 1 := app]
  }

  lemma {:induction false} WaitingIs(app: App, n: nat, k: nat)
    ensures forall t :: t in Waiting(app, n, k) <==> n <= t < k
    ensures forall t :: t in Waiting(app, n, k) ==> Waiting(app, n, k)[t] == app
  {
    if n < k {
      WaitingIs(app, n, k - 1);
    }
  }

  lemma FirstGone(app: App, n: nat, k: nat, other: App)
    requires n < k
    ensures n in Waiting(app, n, k) && Waiting(app, n, k)[n] == app
    ensures Waiting(app, n, k)[n := other] - {n} == Waiting(app, n + 1, k)
  {
    WaitingIs(app, n, k);
    WaitingIs(app, n + 1, k);
    var left, right := Waiting(app, n, k)[n := other] - {n}, Waiting(app, n + 1, k);
    forall t
      ensures t in left <==> t in right
      ensures t in right ==> left[t] == right[t]
    {
      assert t in Waiting(app, n, k) <==> n <= t < k;
      assert t in right <==> n + 1 <= t < k;
    }
    assert left == right;
  }

  /** `n` applications of one code read the order's price and pass the check. */
  function AllCheck(order: string, key: Key, now: int, n: nat): (acts: seq<Act>) {
    if n == 0 then [] else AllCheck(order, key, now, n - 1) + [Fetch(n - 1, order)] + [Check(n - 1, key, now)]
  }

  /** ... and `n` of them write the price and count the use. */
  function AllWrite(acts: seq<Act>, n: nat): (more: seq<Act>) {
    if n == 0 then acts else AllWrite(acts, n - 1) + [Write(n - 1)] + [Count(n - 1)]
  }

  lemma OneMove(desk: Desk, acts: seq<Act>, act: Act)
    ensures Moves(desk, acts + [act]) == match Moves(desk, acts) case None => None case Some(d) => Move(d, act)
  {
    assert (acts + [act])[..|acts|] == acts;
  }

  /** An application that has read the order's price and passed the check of the code. */
  function Passed(desk: Desk, order: string, key: Key): (app: App)
    requires order in desk.prices && key in desk.rows
  {
    Checked(order, desk.prices[order], key, desk.rows[key].percent)
  }

  lemma {:induction false} AllPass(desk: Desk, order: string, key: Key, now: int, n: nat)
    requires desk.apps == map[] && order in desk.prices && Judge(desk.rows, key, now).Accepted?
    ensures Moves(desk, AllCheck(order, key, now, n)) == Some(desk.(apps := Waiting(Passed(desk, order, key), 0, n)))
  {
    if n > 0 {
      var m, app := n - 1, Passed(desk, order, key);
      AllPass(desk, order, key, now, m);
      WaitingIs(app, 0, m);
      var acts := AllCheck(order, key, now, m);
      var before := desk.(apps := Waiting(app, 0, m));
      OneMove(desk, acts, Fetch(m, order));
      OneMove(desk, acts + [Fetch(m, order)], Check(m, key, now));
      assert before.apps[m := Fetched(order, desk.prices[order])][m := app] == Waiting(app, 0, n);
    }
  }

  /** The tables after `n` of the waiting applications wrote and were counted. */
  function Done(desk: Desk, order: string, key: Key, k: nat, n: nat): (d: Desk)
    requires order in desk.prices && key in desk.rows
  {
    var row := desk.rows[key];
    Desk(desk.rows[key := row.(used := row.used + n)],
         if n == 0 then desk.prices else desk.prices[order := TOMAN * ApplyDiscount(desk.prices[order], row.percent)],
         Waiting(Passed(desk, order, key), n, k))
  }

  lemma OneDone(desk: Desk, order: string, key: Key, k: nat, n: nat)
    requires order in desk.prices && key in desk.rows && n < k
    ensures Move(Done(desk, order, key, k, n), Write(n)).Some?
    ensures Move(Move(Done(desk, order, key, k, n), Write(n)).value, Count(n)) == Some(Done(desk, order, key, k, n + 1))
  {
    var before, after := Done(desk, order, key, k, n), Done(desk, order, key, k, n + 1);
    FirstGone(Passed(desk, order, key), n, k, Written(key));
    var written := Move(before, Write(n)).value;
    assert written.rows == before.rows && written.prices == after.prices;
    assert Counted(before.rows, key) == after.rows;
  }

  lemma TwoMoves(desk: Desk, acts: seq<Act>, one: Act, two: Act)
    ensures Moves(desk, acts + [one] + [two]) ==
            match Moves(desk, acts)
            case None => None
            case Some(d) => match Move(d, one) case None => None case Some(e) => Move(e, two)
  {
    OneMove(desk, acts, one);
    OneMove(desk, acts + [one], two);
  }

  lemma {:induction false} AllAreCounted(desk: Desk, order: string, key: Key, now: int, k: nat, n: nat)
    requires desk.apps == map[] && order in desk.prices && Judge(desk.rows, key, now).Accepted? && n <= k
    ensures Moves(desk, AllWrite(AllCheck(order, key, now, k), n)) == Some(Done(desk, order, key, k, n))
  {
    if n == 0 {
      AllPass(desk, order, key, now, k);
      assert Done(desk, order, key, k, 0).rows == desk.rows;
    } else {
      AllAreCounted(desk, order, key, now, k, n - 1);
      OneDone(desk, order, key, k, n - 1);
      TwoMoves(desk, AllWrite(AllCheck(order, key, now, k), n - 1), Write(n - 1), Count(n - 1));
    }
  }

  /** k applications of one code to one order that all read and check before any of them writes are all
      counted, k - 1 of them beyond a limit with one use left; the price falls by one discount only. */
  lemma RaceCountsAll(desk: Desk, order: string, key: Key, now: int, k: nat)
    requires desk.apps == map[] && order in desk.prices && k >= 1
    requires Judge(desk.rows, key, now).Accepted? && desk.rows[key].used == desk.rows[key].limit - 1
    ensures var acts := AllWrite(AllCheck(order, key, now, k), k);
            && Moves(desk, acts).Some?
            && var d := Moves(desk, acts).value;
               && key in d.rows && d.rows[key].used == desk.rows[key].limit + k - 1
               && order in d.prices
               && d.prices[order] == TOMAN * ApplyDiscount(desk.prices[order], desk.rows[key].percent)
  {
    AllAreCounted(desk, order, key, now, k, k);
  }

  /** Two applications of a 10 percent code to an order of 1000 tomans: one after the other they leave 810;
      at once they leave 900, and both are counted. */
  lemma OneDiscountIsLost(desk: Desk, order: string, key: Key, now: int)
    requires desk.apps == map[] && order in desk.prices && desk.prices[order] == TOMAN * 1000
    requires Judge(desk.rows, key, now).Accepted? && desk.rows[key].percent == 1000
    ensures var acts := AllWrite(AllCheck(order, key, now, 2), 2);
            && Moves(desk, acts).Some?
            && var d := Moves(desk, acts).value;
               && key in d.rows && d.rows[key].used == desk.rows[key].used + 2
               && order in d.prices && d.prices[order] == TOMAN * 900
    ensures Stacked(1000, [1000, 1000]) == 810
  {
    AllAreCounted(desk, order, key, now, 2, 2);
    assert ApplyDiscount(TOMAN * 1000, 1000) == 900 && ApplyDiscount(TOMAN * 900, 1000) == 810;
    var both := [1000, 1000];
    assert both[..1] == [1000] && both[..1][..0] == [];
    assert Stacked(1000, both[..1]) == 900;
  }
}
