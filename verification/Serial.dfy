/** Every interleaving ends as the committed calls run one at a time, in commit order. */
module Serial {
  import opened Schema
  import opened Stock
  import opened Settlement
  import opened History
  import opened Machine
  import opened Locks
  import opened Solo

  /** No row is held by two transactions. */
  ghost predicate Exclusive(s: State) {
    forall t, u :: t in s.txs && u in s.txs && t != u ==> s.txs[t].local.held !! s.txs[u].local.held
  }

  /** Every running transaction is where it would be had it run alone on the tables committed so far. */
  ghost predicate InStep(db: Db, tx: Tx) {
    && !tx.call.Single() && tx.call.Valid() && Matches(db, tx.call)
    && !tx.local.phase.Dead? && tx.local == Exec(tx.call, db, tx.n)
  }

  ghost predicate Inv(start: Db, s: State) {
    && Numbered(s.db) && AllValid(s.log) && Replay(start, s.log) == Some(s.db)
    && Exclusive(s)
    && forall t :: t in s.txs ==> InStep(s.db, s.txs[t])
  }

  /** Commits of others leave a running transaction in step. */
  lemma StaysInStep(db: Db, d: Db, tx: Tx)
    requires InStep(db, tx) && Grows(db, d)
    requires Undisturbed(db, d, tx.local.held, tx.local.shared)
    ensures InStep(d, tx)
  {
    ExecFrame(tx.call, db, d, tx.n);
    MatchesStays(db, d, tx.call);
  }

  /** A commit changes only rows the committer holds. */
  lemma CommitUndisturbed(db: Db, l: Local, held: set<Row>, shared: set<int>)
    requires Within(l) && l.held !! held
    ensures Undisturbed(db, Publish(db, l.w), held, shared)
  {
    var d := Publish(db, l.w);
    forall row | row in held
      ensures SameRow(db, d, row)
    {
      assert row !in l.held;
      match row
      case CustomerRow(c) => assert c !in l.w.customers;
      case CodeRow(id) => assert id !in l.w.codes;
      case OrderRow(o) => assert o !in l.w.orders;
      case ResellerRow(r) => assert r !in l.w.resellers;
      case EntryRow(e) => assert e !in l.w.ledger;
      case TopupKey(t) => assert t !in l.w.topups;
    }
  }

  /** A single statement that had to wait for nobody disturbs nobody. */
  lemma AutoUndisturbed(call: Call, db: Db, l: Local)
    requires call.Single() && Statement(db, call).Some? && NoWait(call, db, l) && Numbered(db)
    ensures Undisturbed(db, Statement(db, call).value, l.held, l.shared)
  {
    forall row | row in l.held
      ensures SameRow(db, Statement(db, call).value, row)
    {
      UntouchedIsSame(call, db, row);
    }
    StatementShelf(call, db);
  }

  lemma UntouchedIsSame(call: Call, db: Db, row: Row)
    requires call.Single() && Statement(db, call).Some? && !Touches(call, db, row)
    ensures SameRow(db, Statement(db, call).value, row)
  {
  }

  /** A statement puts nothing back on the shelf, and takes a package only by dropping it. */
  lemma StatementShelf(call: Call, db: Db)
    requires call.Single() && Statement(db, call).Some? && Numbered(db)
    ensures var d := Statement(db, call).value;
            && db.nextCode <= d.nextCode
            && (forall p, id :: id < db.nextCode && Open(d.codes, p, id) ==> Open(db.codes, p, id))
            && (forall p :: p in db.packages && (call.CDropPackages? ==> p !in call.packages) ==> p in d.packages)
  {
  }

  lemma ReplayOneMore(start: Db, log: seq<Call>, db: Db, call: Call)
    requires Replay(start, log) == Some(db) && Matches(db, call) && AllValid(log) && call.Valid()
    ensures Replay(start, log + [call]) == Spec(db, call)
    ensures AllValid(log + [call])
  {
    assert (log + [call])[..|log + [call]| - 1] == log;
  }

  lemma FireCommit(start: Db, s: State, t: int)
    requires Inv(start, s) && Enabled(s, Commit(t))
    ensures Inv(start, Fire(s, Commit(t)))
    ensures Spec(s.db, s.txs[t].call) == Some(Fire(s, Commit(t)).db)
  {
    var tx := s.txs[t];
    var next := Fire(s, Commit(t));
    ExecKeepsLocks(tx.call, s.db, tx.n);
    SoloMeetsSpec(tx.call, s.db, tx.n);
    SpecGrows(s.db, tx.call);
    NumberedStays(s.db, tx.call);
    ReplayOneMore(start, s.log, s.db, tx.call);
    forall u | u in next.txs
      ensures InStep(next.db, next.txs[u])
    {
      CommitUndisturbed(s.db, tx.local, s.txs[u].local.held, s.txs[u].local.shared);
      StaysInStep(s.db, next.db, s.txs[u]);
    }
  }

  lemma FireAuto(start: Db, s: State, call: Call)
    requires Inv(start, s) && Enabled(s, Auto(call))
    ensures Inv(start, Fire(s, Auto(call)))
    ensures Spec(s.db, call) == Some(Fire(s, Auto(call)).db)
  {
    var next := Fire(s, Auto(call));
    SpecGrows(s.db, call);
    NumberedStays(s.db, call);
    ReplayOneMore(start, s.log, s.db, call);
    forall u | u in next.txs
      ensures InStep(next.db, next.txs[u])
    {
      AutoUndisturbed(call, s.db, s.txs[u].local);
      StaysInStep(s.db, next.db, s.txs[u]);
    }
  }

  /** A statement inside a transaction; when it fails, running the whole call now would be refused. */
  lemma FireAdvance(start: Db, s: State, t: int)
    requires Inv(start, s) && Enabled(s, Advance(t))
    ensures Inv(start, Fire(s, Advance(t)))
    ensures t !in Fire(s, Advance(t)).txs ==> Spec(s.db, s.txs[t].call).None?
  {
    var tx := s.txs[t];
    var next := Step(tx.call, s.db, tx.local);
    assert next == Exec(tx.call, s.db, tx.n + 1);
    if next.phase.Dead? {
      SoloMeetsSpec(tx.call, s.db, tx.n + 1);
      Forgotten(start, s, t);
    } else {
      Advanced(start, s, t, Tx(tx.call, tx.n + 1, next));
    }
  }

  /** What a transaction writes is not visible before it commits. */
  lemma AdvanceShowsNothing(s: State, t: int)
    requires Enabled(s, Advance(t))
    ensures Fire(s, Advance(t)).db == s.db && Fire(s, Advance(t)).log == s.log
  {
  }

  lemma Forgotten(start: Db, s: State, t: int)
    requires Inv(start, s)
    ensures Inv(start, s.(txs := s.txs - {t}))
  {
  }

  lemma Advanced(start: Db, s: State, t: int, tx: Tx)
    requires Inv(start, s) && InStep(s.db, tx) && Clear(s, t, tx.local)
    ensures Inv(start, s.(txs := s.txs[t := tx]))
  {
  }

  lemma FireKeeps(start: Db, s: State, e: Event)
    requires Inv(start, s) && Enabled(s, e)
    ensures Inv(start, Fire(s, e))
  {
    match e
    case Begin(t, call) => assert Exec(call, s.db, 0) == IDLE;
    case Advance(t) => FireAdvance(start, s, t);
    case Commit(t) => FireCommit(start, s, t);
    case Abort(t) =>
    case Auto(call) => FireAuto(start, s, call);
  }

  /** Nothing running, nothing committed yet. */
  function Start(db: Db): (s: State) {
    State(db, map[], [])
  }

  lemma {:induction false} RunKeeps(start: Db, from: State, events: seq<Event>, s: State)
    requires Inv(start, from) && Run(from, events, s)
    ensures Inv(start, s) && from.log <= s.log
    decreases |events|
  {
    if events != [] {
      var last := |events| - 1;
      var mid := Play(from, events[..last]).value;
      RunKeeps(start, from, events[..last], mid);
      FireKeeps(start, mid, events[last]);
    }
  }

  lemma {:induction false} ReplaySplit(start: Db, early: seq<Call>, late: seq<Call>)
    requires Replay(start, early).Some?
    ensures Replay(start, early + late) == Replay(Replay(start, early).value, late)
  {
    if late == [] {
      assert early + late == early;
    } else {
      var fewer := late[..|late| - 1];
      ReplaySplit(start, early, fewer);
      assert (early + late)[..|early + late| - 1] == early + fewer;
    }
  }

  /** Serializability.  However the statements of purchases, receipts, top-ups, refunds, stock changes
      and catalog deletes interleave, and whichever transactions die or abort on the way, the tables are
      what the committed calls give when run one at a time in the order they committed. */
  lemma EveryInterleavingIsSerial(start: Db, events: seq<Event>, s: State)
    requires Numbered(start) && Run(Start(start), events, s)
    ensures Replay(start, s.log) == Some(s.db)
    ensures AllValid(s.log)
  {
    RunKeeps(start, Start(start), events, s);
  }

  /** The same between any two points of a run: the later tables are the earlier ones with the calls
      committed in between. */
  lemma LaterIsReplay(start: Db, early: seq<Event>, s: State, late: seq<Event>, s': State)
    requires Numbered(start) && Run(Start(start), early, s) && Run(s, late, s')
    ensures s.log <= s'.log && Replay(s.db, s'.log[|s.log|..]) == Some(s'.db)
    ensures Numbered(s.db) && AllValid(s'.log[|s.log|..])
  {
    RunKeeps(start, Start(start), early, s);
    RunKeeps(start, s, late, s');
    Rejoin(s.log, s'.log);
    ReplaySplit(start, s.log, s'.log[|s.log|..]);
  }

  /** A commit has the effect of the whole call on the tables just before it; a statement shows nothing to
      others, and a transaction that dies is one that would be refused now; an abort leaves nothing. */
  ghost predicate WholeOrNothing(s: State, t: int)
    requires t in s.txs
  {
    && (Enabled(s, Commit(t)) ==> Spec(s.db, s.txs[t].call) == Some(Fire(s, Commit(t)).db))
    && (Enabled(s, Advance(t)) ==>
          && Fire(s, Advance(t)).db == s.db
          && (t !in Fire(s, Advance(t)).txs ==> Spec(s.db, s.txs[t].call).None?))
    && Fire(s, Abort(t)).db == s.db
  }

  lemma WholeOrNothingNow(start: Db, s: State, t: int)
    requires Inv(start, s) && t in s.txs
    ensures WholeOrNothing(s, t)
  {
    if Enabled(s, Commit(t)) {
      FireCommit(start, s, t);
    }
    if Enabled(s, Advance(t)) {
      DiesOnlyIfRefused(start, s, t);
    }
  }

  /** All or nothing, in every interleaving. */
  lemma AllOrNothing(start: Db, events: seq<Event>, s: State, t: int)
    requires Numbered(start) && Run(Start(start), events, s) && t in s.txs
    ensures WholeOrNothing(s, t)
  {
    RunKeeps(start, Start(start), events, s);
    WholeOrNothingNow(start, s, t);
  }

  lemma DiesOnlyIfRefused(start: Db, s: State, t: int)
    requires Inv(start, s) && Enabled(s, Advance(t))
    ensures Fire(s, Advance(t)).db == s.db
    ensures t !in Fire(s, Advance(t)).txs ==> Spec(s.db, s.txs[t].call).None?
  {
    AdvanceShowsNothing(s, t);
    FireAdvance(start, s, t);
  }
}
