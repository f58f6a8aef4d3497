/** Database transactions of several customers and administrators, running interleaved.

    A transaction runs statement by statement against the committed tables, keeps its writes to itself
    until it commits, and holds every row lock it takes until then.  A locking read waits while another
    transaction holds the row, and then sees what was committed last.  A statement outside any
    transaction commits as it runs, but waits for the same locks.  InnoDB takes more locks than this
    (gaps, parent rows of resellers and customers); fewer locks admit more interleavings. */
module Machine {
  import opened Money
  import opened Schema
  import opened Stock
  import opened Settlement

  /** What a lock is held on.  An order, ledger or top-up row can be locked before it exists: that is
      the lock an insert takes on its key. */
  datatype Row =
    | CustomerRow(customer: int)
    | CodeRow(code: int)
    | OrderRow(order: string)
    | ResellerRow(reseller: int)
    | EntryRow(entry: int)
    | TopupKey(topup: int)

  /** The rows a transaction has written and not yet committed. */
  datatype Writes = Writes(
    customers: map<int, Customer>, codes: Shelf, orders: Orders,
    resellers: Wallets, ledger: Ledger, topups: map<int, Topup>)

  const NOTHING := Writes(map[], map[], map[], map[], map[], map[])

  function Publish(db: Db, w: Writes): (after: Db) {
    db.(customers := Merge(db.customers, w.customers), codes := Merge(db.codes, w.codes),
        orders := Merge(db.orders, w.orders), resellers := Merge(db.resellers, w.resellers),
        ledger := Merge(db.ledger, w.ledger), topups := Merge(db.topups, w.topups))
  }

  /** The written rows over the committed ones. */
  function Merge<K, V>(rows: map<K, V>, written: map<K, V>): (merged: map<K, V>)
    ensures merged == rows + written
  {
    if written == map[] then rows else rows + written
  }

  lemma MergePut<K, V>(rows: map<K, V>, written: map<K, V>, k: K, v: V)
    ensures Merge(rows, written[k := v]) == Merge(rows, written)[k := v]
  {
  }

  datatype Phase = At(pc: nat) | Ready | Dead

  /** A running transaction: the next statement, the code rows it picked, whether the deduction ran out
      of credit, its writes, the rows it holds exclusively and the packages it holds shared. */
  datatype Local = Local(
    phase: Phase, ids: seq<int>, short: bool, w: Writes, held: set<Row>, shared: set<int>)
  {
    function Goto(phase: Phase, row: Row): Local {
      this.(phase := phase, held := held + {row})
    }

    function Die(): Local {
      this.(phase := Dead)
    }
  }

  const IDLE := Local(At(0), [], false, NOTHING, {}, {})

  // ---------------------------------------------------------------- the programs, one statement a step

  function PurchaseStep(cart: Cart, db: Db, l: Local, pc: nat): (next: Local) {
    var q := |cart.codes|;
    match Get(db.customers, cart.customer)
    case None => l.Die()
    case Some(buyer) =>
      if pc == 0 then
        if buyer.balance < cart.Cost(q) then l.Die()
        else l.Goto(At(if cart.kind.Instant? then 1 else 2), CustomerRow(cart.customer))
      else if pc == 1 then
        var ids := Lowest(db.codes, cart.package, q, 0, db.nextCode);
        if |ids| < q then l.Die()
        else l.(phase := At(2), ids := ids, held := l.held + set id | id in ids :: CodeRow(id))
      else if pc == 2 then
        l.(phase := At(3),
           w := l.w.(customers := map[cart.customer := buyer.(balance := buyer.balance - cart.Cost(q))]))
      else if pc - 3 < q then
        SellStep(cart, db, l, pc - 3)
      else l.Die()
  }

  /** Insert order `i`; for an instant purchase also mark its code, which is already held. */
  function SellStep(cart: Cart, db: Db, l: Local, i: nat): (next: Local)
    requires i < |cart.codes|
  {
    var order := cart.codes[i];
    if order in db.orders || order in l.w.orders || cart.package !in db.packages then l.Die()
    else
      var moved := l.Goto(if i + 1 == |cart.codes| then Ready else At(i + 4), OrderRow(order))
                    .(shared := l.shared + {cart.package});
      if cart.kind.ByHand? then moved.(w := l.w.(orders := l.w.orders[order := NewOrder(cart, None)]))
      else if i < |l.ids| && l.ids[i] in db.codes then
        var row := db.codes[l.ids[i]];
        moved.(w := l.w.(
          orders := l.w.orders[order := NewOrder(cart, Some(row.code))],
          codes := l.w.codes[l.ids[i] := SoldRow(row, cart.customer, if cart.kind.linked then Some(order) else None)]))
      else l.Die()
  }

  /** The two statements of a deduction: the wallet at `pc`, the ledger at `pc + 1`.  Running out of
      credit skips to `done`. */
  function DeductStep(db: Db, l: Local, first: bool, pc: nat, done: nat,
                      reseller: int, amount: int, reference: Reference, row: int): (next: Local) {
    if first then
      match Get(db.resellers, reseller)
      case None => l.Die()
      case Some(wallet) =>
        var exact := CENT * wallet.balance - amount;
        if exact < -(CENT * wallet.limit)
        then l.Goto(At(done), ResellerRow(reseller)).(short := true)
        else l.Goto(At(pc + 1), ResellerRow(reseller)).(
          w := l.w.(resellers := map[reseller := wallet.(balance := RoundHalfAway(exact))]))
    else if row in db.ledger then l.Die()
    else l.Goto(At(done), EntryRow(row)).(
      w := l.w.(ledger := map[row := LedgerRow(reseller, DeductionRow, RoundHalfAway(-amount), true, reference)]))
  }

  function ReceiptStep(order: string, reseller: int, isTest: bool, amount: int, row: int, db: Db, l: Local, pc: nat)
    : (next: Local)
  {
    if pc == 0 && isTest then l.(phase := At(2))
    else if pc <= 1 then DeductStep(db, l, pc == 0, 0, 2, reseller, amount, ForOrder(order), row)
    else if pc == 2 then
      var status := if l.short then FailedCredit else InReview;
      var commission := if isTest then 0 else RoundHalfAway(amount);
      match Get(db.orders, order)
      case None => l.Goto(Ready, OrderRow(order))
      case Some(o) => l.Goto(Ready, OrderRow(order)).(
        w := l.w.(orders := map[order := o.(status := status, commission := commission, isTest := isTest)]))
    else l.Die()
  }

  function CreditStep(topup: int, reseller: int, customer: int, paid: int, amount: int, row: int, db: Db, l: Local,
                      pc: nat)
    : (next: Local)
  {
    if pc == 0 then
      match Get(db.customers, customer)
      case None => l.Goto(At(1), CustomerRow(customer))
      case Some(c) => l.Goto(At(1), CustomerRow(customer)).(
        w := l.w.(customers := map[customer := c.(balance := c.balance + paid)]))
    else if pc <= 2 then DeductStep(db, l, pc == 1, 1, 3, reseller, amount, ForTopup(topup), row)
    else if pc == 3 then
      match Get(db.topups, topup)
      case None => l.Goto(Ready, TopupKey(topup))
      case Some(t) => l.Goto(Ready, TopupKey(topup)).(
        w := l.w.(topups := map[topup := t.(
          status := if l.short then TopupShort else TopupConfirmed, credited := true)]))
    else l.Die()
  }

  function RefundStep(reseller: int, paid: int, order: string, row: int, db: Db, l: Local, pc: nat): (next: Local) {
    if pc == 0 then
      match Get(db.resellers, reseller)
      case None => l.Die()
      case Some(wallet) => l.Goto(At(1), ResellerRow(reseller)).(
        w := l.w.(resellers := map[reseller := wallet.(balance := wallet.balance + paid)]))
    else if pc == 1 && row !in db.ledger then l.Goto(Ready, EntryRow(row)).(
      w := l.w.(ledger := map[row := LedgerRow(reseller, RefundRow, paid, true, ForOrder(order))]))
    else l.Die()
  }

  function ConfirmStep(row: int, db: Db, l: Local, pc: nat): (next: Local) {
    match Get(db.ledger, row)
    case None => l.Die()
    case Some(entry) =>
      if pc == 0 then
        if entry.confirmed then l.Die()
        else l.Goto(At(1), EntryRow(row)).(w := l.w.(ledger := map[row := entry.(confirmed := true)]))
      else if pc == 1 && entry.reseller in db.resellers then
        var wallet := db.resellers[entry.reseller];
        l.Goto(Ready, ResellerRow(entry.reseller)).(
          w := l.w.(resellers := map[entry.reseller := wallet.(balance := wallet.balance + entry.amount)]))
      else l.Die()
  }

  /** One statement of a transaction, reading the tables as last committed.  A dead transaction is
      about to roll back. */
  function Step(call: Call, db: Db, l: Local): (next: Local) {
    if !l.phase.At? then l
    else match call
      case CPurchase(cart) => PurchaseStep(cart, db, l, l.phase.pc)
      case CReceipt(order, _, reseller, isTest, amount, row) =>
        ReceiptStep(order, reseller, isTest, amount, row, db, l, l.phase.pc)
      case CCredit(topup, reseller, customer, paid, amount, row) =>
        CreditStep(topup, reseller, customer, paid, amount, row, db, l, l.phase.pc)
      case CRefund(reseller, paid, order, row) => RefundStep(reseller, paid, order, row, db, l, l.phase.pc)
      case CConfirm(row) => ConfirmStep(row, db, l, l.phase.pc)
      case _ => l.Die()
  }

  /** The first `n` statements of a transaction that has the tables to itself. */
  function Exec(call: Call, db: Db, n: nat): (l: Local) {
    if n == 0 then IDLE else Step(call, db, Exec(call, db, n - 1))
  }

  // ---------------------------------------------------------------- interleaved runs

  datatype Tx = Tx(call: Call, n: nat, local: Local)

  /** The committed tables, the running transactions, and the calls committed so far in commit order. */
  datatype State = State(db: Db, txs: map<int, Tx>, log: seq<Call>)

  datatype Event =
    | Begin(t: int, call: Call)
    | Advance(t: int)
    | Commit(t: int)
    | Abort(t: int)
    | Auto(call: Call)

  /** No other transaction holds what `l` would hold. */
  ghost predicate Clear(s: State, t: int, l: Local) {
    forall u :: u in s.txs && u != t ==> s.txs[u].local.held !! l.held
  }

  /** The existing rows a single statement writes, and the keys it inserts. */
  predicate Touches(call: Call, db: Db, row: Row) {
    match call
    case CRequest(entry, _, _) => row == EntryRow(entry)
    case CCreateOrder(order, _, _, _, _) => row == OrderRow(order)
    case CSetStatus(order, _) => row == OrderRow(order)
    case CSetPrice(order, _) => row == OrderRow(order)
    case CActivate(order) =>
      row == OrderRow(order) || (order in db.orders && row == ResellerRow(db.orders[order].reseller))
    case CAddCode(_, _) => row == CodeRow(db.nextCode)
    case CDeleteCode(id) => row == CodeRow(id)
    case CClearCodes(package) => row.CodeRow? && Open(db.codes, package, row.code)
    case CDropPackages(packages) => row.CodeRow? && row.code in db.codes && db.codes[row.code].package in packages
    case CLinkOrder(id, _) => row == CodeRow(id)
    case CNewTopup(topup, _, _, _) => row == TopupKey(topup)
    case CRejectTopup(topup) => row == TopupKey(topup)
    case CNewCustomer(customer, _, _) => row == CustomerRow(customer)
    case _ => false
  }

  predicate NoWait(call: Call, db: Db, l: Local) {
    && (forall row :: row in l.held ==> !Touches(call, db, row))
    && (call.CDropPackages? ==> call.packages !! l.shared)
  }

  ghost predicate Enabled(s: State, e: Event) {
    match e
    case Begin(t, call) => t !in s.txs && !call.Single() && call.Valid() && Matches(s.db, call)
    case Advance(t) =>
      t in s.txs && s.txs[t].local.phase.At? &&
      var next := Step(s.txs[t].call, s.db, s.txs[t].local); next.phase.Dead? || Clear(s, t, next)
    case Commit(t) => t in s.txs && s.txs[t].local.phase.Ready?
    case Abort(t) => t in s.txs
    case Auto(call) =>
      && call.Single() && call.Valid() && Matches(s.db, call) && Statement(s.db, call).Some?
      && forall u :: u in s.txs ==> NoWait(call, s.db, s.txs[u].local)
  }

  /** A transaction that dies rolls back: nothing it wrote was ever visible. */
  ghost function Fire(s: State, e: Event): (next: State)
    requires Enabled(s, e)
  {
    match e
    case Begin(t, call) => s.(txs := s.txs[t := Tx(call, 0, IDLE)])
    case Advance(t) =>
      var tx := s.txs[t];
      var next := Step(tx.call, s.db, tx.local);
      if next.phase.Dead? then s.(txs := s.txs - {t})
      else s.(txs := s.txs[t := Tx(tx.call, tx.n + 1, next)])
    case Commit(t) => State(Publish(s.db, s.txs[t].local.w), s.txs - {t}, s.log + [s.txs[t].call])
    case Abort(t) => s.(txs := s.txs - {t})
    case Auto(call) => State(Statement(s.db, call).value, s.txs, s.log + [call])
  }

  /** Where the events lead, each enabled when it fires. */
  ghost function Play(from: State, events: seq<Event>): (s: Option<State>)
    decreases |events|
  {
    if events == [] then Some(from)
    else
      var last := |events| - 1;
      match Play(from, events[..last])
      case None => None
      case Some(mid) => if Enabled(mid, events[last]) then Some(Fire(mid, events[last])) else None
  }

  ghost predicate Run(from: State, events: seq<Event>, s: State) {
    Play(from, events) == Some(s)
  }
}
