/** Backup and restore, statement by statement, on one pooled connection. */
module BackupService {
  import opened Schema
  import opened Backup

  /** `checksOn` is the connection's FOREIGN_KEY_CHECKS: a session setting, which no rollback resets. */
  class Store {
    var committed: Tables
    var work: Tables
    var open: bool
    var checksOn: bool

    constructor (tables: Tables)
      ensures committed == tables && !open && checksOn
    {
      committed, work, open, checksOn := tables, tables, false, true;
    }

    method Begin()
      requires !open
      modifies this`work, this`open
      ensures open && work == committed
    {
      work, open := committed, true;
    }

    method Commit()
      requires open
      modifies this`committed, this`open
      ensures !open && committed == work
    {
      committed, open := work, false;
    }

    method Rollback()
      requires open
      modifies this`open
      ensures !open
    {
      open := false;
    }
  }

  /** create_backup_dict. */
  method CreateBackup(store: Store) returns (document: Document)
    requires Complete(store.committed)
    ensures document == BackupOf(store.committed)
  {
    var tables: map<Table, Json> := map[];
    var n := 0;
    while n < |LISTED|
      invariant 0 <= n <= |LISTED|
      invariant tables == map t | t in store.committed && Rank(t) < n :: EncodeTable(store.committed[t])
    {
      var t := LISTED[n];
      PlaceIsRank(n);
      forall u | Rank(u) == n
        ensures u == t
      {
        RankIsPlace(u);
      }
      tables := tables[t := EncodeTable(store.committed[t])];
      n := n + 1;
    }
    return Document(true, tables);
  }

  /** One table: an INSERT for every item of its list. */
  method LoadTable(store: Store, schemas: Schemas, t: Table, json: Json) returns (ok: bool)
    requires store.open && t in store.work && store.work[t] == []
    modifies store`work
    ensures ok == FillTable(schemas, old(store.work), t, json).Some?
    ensures ok ==> FillTable(schemas, old(store.work), t, json) == Some(store.work)
  {
    if t !in schemas {
      return false;
    }
    var list := Items(json);
    if list.None? {
      return false;
    }
    var items := list.value;
    var i := 0;
    while i < |items|
      invariant 0 <= i <= |items| && t in store.work
      invariant store.work == old(store.work)[t := store.work[t]]
      invariant LoadItems(schemas[t], items, i) == Some(store.work[t])
    {
      var rows := LoadItem(schemas[t], store.work[t], items[i]);
      if rows.None? {
        NothingLoads(schemas[t], items, i + 1, |items|);
        return false;
      }
      store.work := store.work[t := rows.value];
      i := i + 1;
    }
    return true;
  }

  lemma {:induction false} FillStops(schemas: Schemas, db: Tables, tables: map<Table, Json>, n: nat, m: nat)
    requires n <= m <= |LISTED| && Fill(schemas, db, tables, n).None?
    ensures Fill(schemas, db, tables, m).None?
  {
    if n < m {
      FillStops(schemas, db, tables, n, m - 1);
    }
  }

  /** The tables not reached yet are still empty. */
  lemma {:induction false} RestIsEmpty(schemas: Schemas, db: Tables, tables: map<Table, Json>, n: nat)
    requires n <= |LISTED| && Complete(db) && Fill(schemas, Emptied(db, 0), tables, n).Some?
    ensures var d := Fill(schemas, Emptied(db, 0), tables, n).value;
            Complete(d) && forall t :: n <= Rank(t) < 20 ==> d[t] == []
  {
    if n > 0 {
      RestIsEmpty(schemas, db, tables, n - 1);
      PlaceIsRank(n - 1);
    }
  }

  lemma EmptyOneMore(db: Tables, k: nat)
    requires k < |LISTED| && Complete(db)
    ensures Emptied(db, k + 1)[LISTED[k] := []] == Emptied(db, k)
  {
    PlaceIsRank(k);
    forall t | t in db && Rank(t) == k
      ensures t == LISTED[k]
    {
      RankIsPlace(t);
    }
  }

  /** DELETE FROM every listed table, last one first. */
  method DeleteAll(store: Store)
    requires store.open && Complete(store.work)
    modifies store`work
    ensures store.work == Emptied(old(store.work), 0)
  {
    ghost var db := store.work;
    var k := |LISTED|;
    assert Emptied(db, 20) == db;
    while k > 0
      invariant 0 <= k <= |LISTED| && store.work == Emptied(db, k)
    {
      k := k - 1;
      EmptyOneMore(db, k);
      store.work := store.work[LISTED[k] := []];
    }
  }

  /** The listed tables filled, first one first. */
  method LoadAll(store: Store, schemas: Schemas, tables: map<Table, Json>, ghost db: Tables) returns (ok: bool)
    requires store.open && Complete(db) && store.work == Emptied(db, 0)
    modifies store`work
    ensures ok == Fill(schemas, Emptied(db, 0), tables, |LISTED|).Some?
    ensures ok ==> Fill(schemas, Emptied(db, 0), tables, |LISTED|) == Some(store.work)
  {
    var n := 0;
    while n < |LISTED|
      invariant 0 <= n <= |LISTED| && Fill(schemas, Emptied(db, 0), tables, n) == Some(store.work)
    {
      RestIsEmpty(schemas, db, tables, n);
      PlaceIsRank(n);
      var loaded := LoadTable(store, schemas, LISTED[n], TableEntry(tables, LISTED[n]));
      n := n + 1;
      if !loaded {
        FillStops(schemas, Emptied(db, 0), tables, n, |LISTED|);
        return false;
      }
    }
    return true;
  }

  /** restore_from_dict.  All or nothing on the tables, whatever the document holds; but the statement
      that turns the foreign-key checks on again is skipped when an insert fails, so the connection goes
      back to the pool with the checks off. */
  method RestoreFromDict(store: Store, schemas: Schemas, tables: map<Table, Json>) returns (ok: bool)
    requires !store.open && Complete(store.committed)
    modifies store
    ensures !store.open && (ok <==> Restorable(schemas, old(store.committed), tables))
    ensures ok ==> Restore(schemas, old(store.committed), tables) == Some(store.committed)
    ensures !ok ==> store.committed == old(store.committed)
    ensures store.checksOn <==> Restorable(schemas, old(store.committed), tables)
  {
    RestoresExactlyWhen(schemas, store.committed, tables);
    forall i | 0 <= i < |LISTED|
      ensures LISTED[i] in store.committed
    {
      PlaceIsRank(i);
    }
    store.Begin();
    store.checksOn := false;
    DeleteAll(store);
    ok := LoadAll(store, schemas, tables, store.committed);
    if ok {
      store.checksOn := true;
      store.Commit();
    } else {
      store.Rollback();
    }
  }

  datatype SafeRestore =
    | Invalid(finding: Finding)
    | Failed(safety: Document)
    | Restored(safety: Document)

  /** perform_safe_restore: validation, a safety backup, the restore. */
  method PerformSafeRestore(store: Store, schemas: Schemas, file: Upload) returns (r: SafeRestore)
    requires !store.open && Complete(store.committed)
    modifies store
    ensures !store.open
    ensures match r
            case Invalid(finding) => Validate(file) == Some(finding) && store.committed == old(store.committed)
            case Failed(safety) =>
              && Validate(file).None? && safety == BackupOf(old(store.committed))
              && !Restorable(schemas, old(store.committed), file.entry.tables)
              && store.committed == old(store.committed)
            case Restored(safety) =>
              && Validate(file).None? && safety == BackupOf(old(store.committed))
              && Restore(schemas, old(store.committed), file.entry.tables) == Some(store.committed)
    ensures r == Invalid(BadJson) <==> file.Unreadable?
    ensures r == Invalid(MissingKeys) <==> file.Parsed? && (!file.created || file.entry.Absent?)
    ensures r == Invalid(TablesNotAnObject) <==> file.Parsed? && file.created && file.entry.NotAnObject?
    ensures r == Invalid(TooFewKnownTables) <==>
              && file.Parsed? && file.created && file.entry.TablesOf?
              && |set t | t in file.entry.tables && t in LISTED| < 3
  {
    ghost var upload := file;
    if upload.Parsed? && upload.entry.TablesOf? {
      KnownTables(upload.entry.tables);
    }
    var finding := Validate(file);
    if finding.Some? {
      return Invalid(finding.value);
    }
    var safety := CreateBackup(store);
    var ok := RestoreFromDict(store, schemas, file.entry.tables);
    return if ok then Restored(safety) else Failed(safety);
  }

  /** Validation counts the listed tables of the document. */
  lemma KnownTables(tables: map<Table, Json>)
    ensures (set t | t in tables && t in LISTED) == set t | t in tables && Rank(t) < 20
  {
    forall t | t in tables
      ensures t in LISTED <==> Rank(t) < 20
    {
      ListedTables(t);
    }
  }

  /** The safety file undoes the restore it was taken for: restoring it gives the whole database back,
      the other tables included. */
  lemma SafetyFileUndoes(schemas: Schemas, before: Tables, tables: map<Table, Json>, after: Tables)
    requires WellFormed(schemas, before) && Restore(schemas, before, tables) == Some(after)
    ensures Validate(Uploaded(BackupOf(before))).None?
    ensures Restore(schemas, after, BackupOf(before).tables) == Some(before)
  {
    OthersStay(schemas, before, tables, after);
    BackupIsValid(before);
    RestoredIs(schemas, before, after);
  }

  lemma OthersStay(schemas: Schemas, before: Tables, tables: map<Table, Json>, after: Tables)
    requires Restore(schemas, before, tables) == Some(after)
    ensures after.Keys == before.Keys && forall t :: t in before && Rank(t) == 20 ==> after[t] == before[t]
  {
    RestoreTouchesListed(schemas, before, tables);
  }

  lemma RestoredIs(schemas: Schemas, before: Tables, after: Tables)
    requires WellFormed(schemas, before) && after.Keys == before.Keys
    requires forall t :: t in before && Rank(t) == 20 ==> after[t] == before[t]
    ensures Restore(schemas, after, BackupOf(before).tables) == Some(before)
  {
    RestoreGivesBack(schemas, before, after);
    SameTables(Restore(schemas, after, BackupOf(before).tables).value, before, after);
  }

  lemma SameTables(d: Tables, before: Tables, after: Tables)
    requires d.Keys == after.Keys == before.Keys
    requires forall t :: t in before && Rank(t) == 20 ==> after[t] == before[t]
    requires forall t :: t in d ==> d[t] == if Rank(t) < 20 then before[t] else after[t]
    ensures d == before
  {
    forall t | t in d
      ensures d[t] == before[t]
    {
      if Rank(t) < 20 {} else {
        assert Rank(t) == 20;
      }
    }
  }

  /** Every backup passes validation. */
  lemma BackupIsValid(db: Tables)
    requires Complete(db)
    ensures Validate(Uploaded(BackupOf(db))).None?
  {
    var known := set t | t in BackupOf(db).tables && Rank(t) < 20;
    assert {Resellers, Packages, Orders} <= known;
    Fewer({Resellers, Packages, Orders}, known);
  }
}
