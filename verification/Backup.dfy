/** Backup to a JSON document and restore from one. */
module Backup {
  import opened Schema
  import opened BackupText

  // ---------------------------------------------------------------- tables, rows, documents

  /** The tables of TABLES_IN_DEPENDENCY_ORDER, and any other. */
  datatype Table =
    | Resellers | ResellerOperators | WalletTransactions | Categories | Packages | Customers | Orders | Disputes
    | ActivityLogs | CategoryPriceFloors | DiscountCodes | Referrals | ReferralLinks | ForcedJoinChannels | Blacklist
    | CryptoSettings | Broadcasts | GlobalSettings | ChargeCodes | BackupLogs
    | Unlisted(name: string)

  const LISTED: seq<Table> := [
    Resellers, ResellerOperators, WalletTransactions, Categories, Packages, Customers, Orders, Disputes,
    ActivityLogs, CategoryPriceFloors, DiscountCodes, Referrals, ReferralLinks, ForcedJoinChannels, Blacklist,
    CryptoSettings, Broadcasts, GlobalSettings, ChargeCodes, BackupLogs]

  /** A table's place in the list; 20 for every other table. */
  function Rank(t: Table): (rank: nat) {
    match t
    case Resellers => 0 case ResellerOperators => 1 case WalletTransactions => 2 case Categories => 3
    case Packages => 4 case Customers => 5 case Orders => 6 case Disputes => 7 case ActivityLogs => 8
    case CategoryPriceFloors => 9 case DiscountCodes => 10 case Referrals => 11 case ReferralLinks => 12
    case ForcedJoinChannels => 13 case Blacklist => 14 case CryptoSettings => 15 case Broadcasts => 16
    case GlobalSettings => 17 case ChargeCodes => 18 case BackupLogs => 19
    case Unlisted(_) => 20
  }

  lemma RankIsPlace(t: Table)
    ensures Rank(t) < 20 ==> LISTED[Rank(t)] == t
  {
  }

  lemma PlaceIsRank(n: nat)
    requires n < |LISTED|
    ensures Rank(LISTED[n]) == n
  {
  }

  datatype Cell = Null | Int(n: int) | Str(text: string) | Dec(cents: int) | Time(moment: Moment)

  datatype Kind = Whole | Words | Money | Stamp

  /** `initial` is what the column holds when an INSERT does not name it; None means it must be named. */
  datatype Column = Column(kind: Kind, nullable: bool, initial: Option<Cell>)
  {
    predicate Fits(cell: Cell) {
      match cell
      case Null => nullable
      case Int(_) => kind == Whole
      case Str(_) => kind == Words
      case Dec(_) => kind == Money
      case Time(m) => kind == Stamp && m.Valid()
    }
  }

  /** `key` is the primary key. */
  datatype Layout = Layout(columns: map<string, Column>, key: string)

  type Row = map<string, Cell>
  type Tables = map<Table, seq<Row>>
  type Schemas = map<Table, Layout>

  datatype Json =
    | JNull
    | JBool(b: bool)
    | JInt(n: int)
    | JStr(text: string)
    | JList(items: seq<Json>)
    | JObject(fields: map<string, Json>)
  {
    /** What Python's `not` is true of. */
    predicate Falsy() {
      match this
      case JNull => true
      case JBool(b) => !b
      case JInt(n) => n == 0
      case JStr(s) => s == []
      case JList(items) => items == []
      case JObject(fields) => fields == map[]
    }
  }

  /** A document: `created` says that created_at is there, `tables` is the "tables" object, by table. */
  datatype Document = Document(created: bool, tables: map<Table, Json>)

  // ---------------------------------------------------------------- taking a backup

  function Encode(cell: Cell): (json: Json) {
    match cell
    case Null => JNull
    case Int(n) => JInt(n)
    case Str(s) => JStr(s)
    case Dec(cents) => JStr(WriteDecimal(cents))
    case Time(m) => JStr(WriteMoment(m))
  }

  function EncodeRow(row: Row): (json: Json) {
    JObject(map c | c in row :: Encode(row[c]))
  }

  function EncodeTable(rows: seq<Row>): (json: Json) {
    JList(seq(|rows|, i requires 0 <= i < |rows| => EncodeRow(rows[i])))
  }

  /** Every listed table, and only those. */
  function BackupOf(db: Tables): (document: Document) {
    Document(true, map t | t in db && Rank(t) < 20 :: EncodeTable(db[t]))
  }

  // ---------------------------------------------------------------- reading it back

  /** A value as the database converts it for a column. */
  function Decode(column: Column, json: Json): (cell: Option<Cell>) {
    match json
    case JNull => if column.nullable then Some(Null) else None
    case JBool(b) => if column.kind == Whole then Some(Int(if b then 1 else 0)) else None
    case JInt(n) =>
      if column.kind == Whole then Some(Int(n))
      else if column.kind == Money then Some(Dec(100 * n))
      else None
    case JStr(s) => DecodeText(column.kind, s)
    case _ => None
  }

  function DecodeText(kind: Kind, s: string): (cell: Option<Cell>) {
    match kind
    case Whole => None
    case Words => Some(Str(s))
    case Money => (match ReadDecimal(s) case Some(cents) => Some(Dec(cents)) case None => None)
    case Stamp => (match ReadMoment(s) case Some(m) => Some(Time(m)) case None => None)
  }

  /** The value a column gets: decoded when the INSERT names it, otherwise its default. */
  function Filled(column: Column, named: Option<Json>): (cell: Option<Cell>) {
    match named
    case Some(json) => Decode(column, json)
    case None => column.initial
  }

  /** Every column named exists, and every column gets a value it can hold. */
  predicate Storable(layout: Layout, fields: map<string, Json>) {
    && fields.Keys <= layout.columns.Keys
    && forall c :: c in layout.columns ==> Filled(layout.columns[c], Get(fields, c)).Some?
  }

  /** The row an INSERT of these fields stores. */
  function RowOf(layout: Layout, fields: map<string, Json>): (row: Row) {
    map c | c in layout.columns && Filled(layout.columns[c], Get(fields, c)).Some? ::
      Filled(layout.columns[c], Get(fields, c)).value
  }

  /** INSERT: the row can be stored, and its primary key is new. */
  function InsertRow(layout: Layout, rows: seq<Row>, fields: map<string, Json>): (after: Option<seq<Row>>) {
    if !Storable(layout, fields) then None
    else
      var row := RowOf(layout, fields);
      if exists i :: 0 <= i < |rows| && Get(rows[i], layout.key) == Get(row, layout.key) then None
      else Some(rows + [row])
  }

  /** One item of the document's list: skipped when empty, an error when it is not an object. */
  function LoadItem(layout: Layout, rows: seq<Row>, item: Json): (after: Option<seq<Row>>) {
    if item.Falsy() then Some(rows)
    else if item.JObject? then InsertRow(layout, rows, item.fields)
    else None
  }

  /** The first `n` items. */
  function LoadItems(layout: Layout, items: seq<Json>, n: nat): (rows: Option<seq<Row>>)
    requires n <= |items|
  {
    if n == 0 then Some([])
    else
      match LoadItems(layout, items, n - 1)
      case None => None
      case Some(rows) => LoadItem(layout, rows, items[n - 1])
  }

  /** What iterating over the table's entry gives: the items of a list, the characters of a string, the
      keys of an object; anything else is an error.  An item that is a non-empty string is an error later;
      of an object's keys only the empty one is not. */
  function Items(json: Json): (items: Option<seq<Json>>) {
    match json
    case JList(items) => Some(items)
    case JStr(s) => Some(seq(|s|, i requires 0 <= i < |s| => JStr([s[i]])))
    case JObject(fields) => if fields.Keys <= {""} then Some([]) else None
    case _ => None
  }

  /** The entry of a table in the document; a table the document leaves out has no rows. */
  function TableEntry(tables: map<Table, Json>, t: Table): (json: Json) {
    if t in tables then tables[t] else JList([])
  }

  /** After DELETE FROM the listed tables from number `k` on. */
  function Emptied(db: Tables, k: nat): (after: Tables) {
    map t | t in db :: if k <= Rank(t) < 20 then [] else db[t]
  }

  function FillTable(schemas: Schemas, db: Tables, t: Table, json: Json): (after: Option<Tables>) {
    if t !in schemas || Items(json).None? then None
    else
      match LoadItems(schemas[t], Items(json).value, |Items(json).value|)
      case None => None
      case Some(rows) => Some(db[t := rows])
  }

  /** The first `n` tables filled. */
  function Fill(schemas: Schemas, db: Tables, tables: map<Table, Json>, n: nat): (after: Option<Tables>)
    requires n <= |LISTED|
  {
    if n == 0 then Some(db)
    else
      match Fill(schemas, db, tables, n - 1)
      case None => None
      case Some(d) => FillTable(schemas, d, LISTED[n - 1], TableEntry(tables, LISTED[n - 1]))
  }

  /** restore_from_dict: the listed tables emptied, then filled from the document; an error when one of
      them does not exist. */
  function Restore(schemas: Schemas, db: Tables, tables: map<Table, Json>): (after: Option<Tables>) {
    if exists n :: 0 <= n < |LISTED| && LISTED[n] !in db then None
    else Fill(schemas, Emptied(db, 0), tables, |LISTED|)
  }

  // ---------------------------------------------------------------- validation

  /** The "tables" entry of an uploaded file. */
  datatype TablesEntry = Absent | NotAnObject | TablesOf(tables: map<Table, Json>)

  /** An uploaded file: one that is not JSON, or its two required keys.  A document that is no object has
      neither key. */
  datatype Upload = Unreadable | Parsed(created: bool, entry: TablesEntry)

  datatype Finding = BadJson | MissingKeys | TablesNotAnObject | TooFewKnownTables

  /** validate_backup_file: the document, or the first fault found. */
  function Validate(file: Upload): (finding: Option<Finding>)
    ensures finding.None? ==> file.Parsed? && file.entry.TablesOf?
  {
    match file
    case Unreadable => Some(BadJson)
    case Parsed(created, entry) =>
      if !created || entry.Absent? then Some(MissingKeys)
      else if entry.NotAnObject? then Some(TablesNotAnObject)
      else if |set t | t in entry.tables && Rank(t) < 20| < 3 then Some(TooFewKnownTables)
      else None
  }

  function Uploaded(document: Document): (file: Upload) {
    Parsed(document.created, TablesOf(document.tables))
  }

  /** Every table of the enumeration is listed, once, and no other is. */
  lemma ListedTables(t: Table)
    ensures t in LISTED <==> !t.Unlisted?
    ensures t in LISTED <==> Rank(t) < 20
    ensures |LISTED| == 20 && forall i, j :: 0 <= i < j < |LISTED| ==> LISTED[i] != LISTED[j]
  {
    if Rank(t) < 20 {
      RankIsPlace(t);
    }
    if t in LISTED {
      var n :| 0 <= n < |LISTED| && LISTED[n] == t;
      PlaceIsRank(n);
    }
    forall i, j | 0 <= i < j < |LISTED|
      ensures LISTED[i] != LISTED[j]
    {
      PlaceIsRank(i);
      PlaceIsRank(j);
    }
  }

  // ---------------------------------------------------------------- what an item of a document becomes

  /** An empty item is skipped, and anything else that is no object is an error. */
  lemma OnlyObjectsLoad(layout: Layout, rows: seq<Row>, item: Json)
    requires !item.JObject?
    ensures LoadItem(layout, rows, item) ==
            if item in [JNull, JBool(false), JInt(0), JStr(""), JList([])] then Some(rows) else None
  {
  }

  lemma EmptyObjectIsSkipped(layout: Layout, rows: seq<Row>)
    ensures LoadItem(layout, rows, JObject(map[])) == Some(rows)
  {
  }

  /** An object is refused when it names an unknown column, a null for a column that takes none, or leaves out
      a column that must be named. */
  lemma InsertRefuses(layout: Layout, rows: seq<Row>, fields: map<string, Json>, c: string)
    requires fields != map[]
    requires || (c in fields && c !in layout.columns)
             || (c in fields && c in layout.columns && fields[c].JNull? && !layout.columns[c].nullable)
             || (c !in fields && c in layout.columns && layout.columns[c].initial.None?)
    ensures LoadItem(layout, rows, JObject(fields)).None?
  {
    if c in layout.columns {
      assert Filled(layout.columns[c], Get(fields, c)).None?;
    }
  }

  /** An object that goes in becomes one row at the end, with every column of the table: the ones it names with
      the value named, the others with their default; and its primary key was new. */
  lemma InsertStores(layout: Layout, rows: seq<Row>, fields: map<string, Json>)
    requires fields != map[] && LoadItem(layout, rows, JObject(fields)).Some?
    ensures var after := LoadItem(layout, rows, JObject(fields)).value;
            && |after| == |rows| + 1 && after[..|rows|] == rows
            && after[|rows|].Keys == layout.columns.Keys
            && (forall i :: 0 <= i < |rows| && layout.key in rows[i] && layout.key in layout.columns ==>
                  rows[i][layout.key] != after[|rows|][layout.key])
            && forall c :: c in layout.columns ==>
                 var cell := after[|rows|][c];
                 if c !in fields then layout.columns[c].initial == Some(cell)
                 else match fields[c]
                      case JNull => cell == Null
                      case JBool(b) => cell == Int(if b then 1 else 0)
                      case JInt(n) => cell == if layout.columns[c].kind == Whole then Int(n) else Dec(100 * n)
                      case JStr(text) =>
                        (match layout.columns[c].kind
                         case Words => cell == Str(text)
                         case Money => cell.Dec? && ReadDecimal(text) == Some(cell.cents)
                         case Stamp => cell.Time? && ReadMoment(text) == Some(cell.moment)
                         case Whole => false)
                      case _ => false
  {
    var row := RowOf(layout, fields);
    assert InsertRow(layout, rows, fields) == Some(rows + [row]);
    forall c | c in layout.columns
      ensures Filled(layout.columns[c], Get(fields, c)) == Some(row[c])
    {
    }
  }

  /** A table's entry that is no list: nothing to insert when it is an empty text or object, and otherwise an
      error, but for an object whose only key is empty. */
  lemma EntryThatIsNoList(schemas: Schemas, db: Tables, t: Table, json: Json)
    requires t in schemas && !json.JList?
    ensures FillTable(schemas, db, t, json) ==
            if json == JStr("") || (json.JObject? && json.fields.Keys <= {""}) then Some(db[t := []]) else None
  {
    if json.JStr? && json.text != "" {
      var items := Items(json).value;
      assert items[0] == JStr([json.text[0]]) && LoadItem(schemas[t], [], items[0]).None?;
      assert LoadItems(schemas[t], items, 0) == Some([]);
      NothingLoads(schemas[t], items, 1, |items|);
    }
  }

  lemma {:induction false} NothingLoads(layout: Layout, items: seq<Json>, n: nat, m: nat)
    requires n <= m <= |items| && LoadItems(layout, items, n).None?
    ensures LoadItems(layout, items, m).None?
  {
    if n < m {
      NothingLoads(layout, items, n, m - 1);
    }
  }

  /** After a restore that goes through, a listed table holds what its items in the document load to. */
  lemma RestoredRows(schemas: Schemas, db: Tables, tables: map<Table, Json>, t: Table)
    requires Restore(schemas, db, tables).Some? && !t.Unlisted? && t in tables && tables[t].JList?
    ensures var items := tables[t].items; var d := Restore(schemas, db, tables).value;
            && t in schemas && t in d && LoadItems(schemas[t], items, |items|) == Some(d[t])
  {
    RankIsPlace(t);
    FilledRows(schemas, Emptied(db, 0), tables, |LISTED|, Rank(t));
  }

  lemma {:induction false} FilledRows(schemas: Schemas, db: Tables, tables: map<Table, Json>, n: nat, k: nat)
    requires k < n <= |LISTED| && Fill(schemas, db, tables, n).Some?
    ensures var t := LISTED[k]; var d := Fill(schemas, db, tables, n).value;
            var items := Items(TableEntry(tables, t));
            && t in schemas && t in d && items.Some?
            && LoadItems(schemas[t], items.value, |items.value|) == Some(d[t])
  {
    PlaceIsRank(n - 1);
    PlaceIsRank(k);
    if k < n - 1 {
      FilledRows(schemas, db, tables, n - 1, k);
    }
  }

  // ---------------------------------------------------------------- when a restore goes through

  predicate Entered(item: Json) {
    !item.Falsy() && item.JObject?
  }

  predicate ItemFits(layout: Layout, item: Json) {
    item.Falsy() || (item.JObject? && Storable(layout, item.fields))
  }

  function KeyOf(layout: Layout, item: Json): (key: Option<Cell>)
    requires item.JObject?
  {
    Get(RowOf(layout, item.fields), layout.key)
  }

  /** The first `n` items: each empty or an object that can be stored, no primary key twice. */
  ghost predicate Loadable(layout: Layout, items: seq<Json>, n: nat)
    requires n <= |items|
  {
    && (forall i :: 0 <= i < n ==> ItemFits(layout, items[i]))
    && (forall i, j :: 0 <= i < j < n && Entered(items[i]) && Entered(items[j]) ==>
          KeyOf(layout, items[i]) != KeyOf(layout, items[j]))
  }

  /** A row has this key exactly when an item had it. */
  ghost predicate SameKeys(layout: Layout, items: seq<Json>, n: nat, rows: seq<Row>)
    requires n <= |items|
  {
    && (forall r :: 0 <= r < |rows| ==> HasKey(layout, items, n, Get(rows[r], layout.key)))
    && (forall i :: 0 <= i < n && Entered(items[i]) ==> KeyTaken(layout, rows, KeyOf(layout, items[i])))
  }

  ghost predicate HasKey(layout: Layout, items: seq<Json>, n: nat, key: Option<Cell>)
    requires n <= |items|
  {
    exists i :: 0 <= i < n && Entered(items[i]) && KeyOf(layout, items[i]) == key
  }

  ghost predicate KeyTaken(layout: Layout, rows: seq<Row>, key: Option<Cell>) {
    exists r :: 0 <= r < |rows| && Get(rows[r], layout.key) == key
  }

  lemma InsertsExactlyWhen(layout: Layout, rows: seq<Row>, item: Json)
    requires Entered(item)
    ensures LoadItem(layout, rows, item) ==
            if Storable(layout, item.fields) && !KeyTaken(layout, rows, KeyOf(layout, item))
            then Some(rows + [RowOf(layout, item.fields)]) else None
  {
  }

  lemma MoreKeys(layout: Layout, items: seq<Json>, n: nat, rows: seq<Row>)
    requires n < |items| && Entered(items[n]) && SameKeys(layout, items, n, rows)
    ensures SameKeys(layout, items, n + 1, rows + [RowOf(layout, items[n].fields)])
  {
    var more := rows + [RowOf(layout, items[n].fields)];
    forall r | 0 <= r < |more|
      ensures HasKey(layout, items, n + 1, Get(more[r], layout.key))
    {
      if r < |rows| {
        assert HasKey(layout, items, n, Get(rows[r], layout.key));
      } else {
        assert KeyOf(layout, items[n]) == Get(more[r], layout.key);
      }
    }
    forall i | 0 <= i < n + 1 && Entered(items[i])
      ensures KeyTaken(layout, more, KeyOf(layout, items[i]))
    {
      if i < n {
        var r :| 0 <= r < |rows| && Get(rows[r], layout.key) == KeyOf(layout, items[i]);
        assert Get(more[r], layout.key) == KeyOf(layout, items[i]);
      } else {
        assert Get(more[|rows|], layout.key) == KeyOf(layout, items[i]);
      }
    }
  }

  lemma SkipKeys(layout: Layout, items: seq<Json>, n: nat, rows: seq<Row>)
    requires n < |items| && !Entered(items[n]) && SameKeys(layout, items, n, rows)
    ensures SameKeys(layout, items, n + 1, rows)
  {
    forall r | 0 <= r < |rows|
      ensures HasKey(layout, items, n + 1, Get(rows[r], layout.key))
    {
      assert HasKey(layout, items, n, Get(rows[r], layout.key));
    }
  }

  /** The key of item `n` is taken exactly when an earlier item had it. */
  lemma TakenIsHad(layout: Layout, items: seq<Json>, n: nat, rows: seq<Row>)
    requires n < |items| && Entered(items[n]) && SameKeys(layout, items, n, rows)
    ensures KeyTaken(layout, rows, KeyOf(layout, items[n])) <==> HasKey(layout, items, n, KeyOf(layout, items[n]))
  {
  }

  lemma LoadableMore(layout: Layout, items: seq<Json>, n: nat)
    requires n < |items|
    ensures Loadable(layout, items, n + 1) <==>
              && Loadable(layout, items, n) && ItemFits(layout, items[n])
              && (Entered(items[n]) ==> !HasKey(layout, items, n, KeyOf(layout, items[n])))
  {
  }

  /** A table's list loads exactly when its items are all empty or storable, with distinct keys. */
  lemma {:induction false} LoadsExactlyWhen(layout: Layout, items: seq<Json>, n: nat)
    requires n <= |items|
    ensures LoadItems(layout, items, n).Some? <==> Loadable(layout, items, n)
    ensures LoadItems(layout, items, n).Some? ==> SameKeys(layout, items, n, LoadItems(layout, items, n).value)
  {
    if n > 0 {
      var m := n - 1;
      LoadsExactlyWhen(layout, items, m);
      LoadableMore(layout, items, m);
      if LoadItems(layout, items, m).Some? {
        NextLoads(layout, items, m, LoadItems(layout, items, m).value);
      }
    }
  }

  lemma NextLoads(layout: Layout, items: seq<Json>, n: nat, rows: seq<Row>)
    requires n < |items| && SameKeys(layout, items, n, rows)
    ensures var next := LoadItem(layout, rows, items[n]);
            && (next.Some? <==> ItemFits(layout, items[n])
                                && (Entered(items[n]) ==> !HasKey(layout, items, n, KeyOf(layout, items[n]))))
            && (next.Some? ==> SameKeys(layout, items, n + 1, next.value))
  {
    if Entered(items[n]) {
      InsertsExactlyWhen(layout, rows, items[n]);
      TakenIsHad(layout, items, n, rows);
      MoreKeys(layout, items, n, rows);
    } else {
      SkipKeys(layout, items, n, rows);
    }
  }

  /** What a caller can look up before restoring a document into these tables. */
  ghost predicate Restorable(schemas: Schemas, db: Tables, tables: map<Table, Json>) {
    && (forall n :: 0 <= n < |LISTED| ==> LISTED[n] in db)
    && (forall n :: 0 <= n < |LISTED| ==> TableFits(schemas, LISTED[n], TableEntry(tables, LISTED[n])))
  }

  /** The table is known, its entry can be iterated, and the items load. */
  ghost predicate TableFits(schemas: Schemas, t: Table, json: Json) {
    t in schemas && Items(json).Some? && Loadable(schemas[t], Items(json).value, |Items(json).value|)
  }

  lemma {:induction false} FillsExactlyWhen(schemas: Schemas, db: Tables, tables: map<Table, Json>, n: nat)
    requires n <= |LISTED|
    ensures Fill(schemas, db, tables, n).Some? <==>
              forall k :: 0 <= k < n ==> TableFits(schemas, LISTED[k], TableEntry(tables, LISTED[k]))
  {
    if n > 0 {
      var t, json := LISTED[n - 1], TableEntry(tables, LISTED[n - 1]);
      FillsExactlyWhen(schemas, db, tables, n - 1);
      if t in schemas && Items(json).Some? {
        LoadsExactlyWhen(schemas[t], Items(json).value, |Items(json).value|);
      }
    }
  }

  /** A restore goes through if and only if every listed table exists and can be iterated in the document,
      and its items are empty or storable objects with distinct primary keys. */
  lemma RestoresExactlyWhen(schemas: Schemas, db: Tables, tables: map<Table, Json>)
    ensures Restore(schemas, db, tables).Some? <==> Restorable(schemas, db, tables)
  {
    FillsExactlyWhen(schemas, Emptied(db, 0), tables, |LISTED|);
  }

  /** Validation does not look at the rows: a document that passes it and cannot be restored. */
  lemma ValidFileThatFails(schemas: Schemas, db: Tables)
    ensures var tables := map[Resellers := JList([]), Packages := JList([]), Orders := JList([JInt(1)])];
            && Validate(Parsed(true, TablesOf(tables))).None?
            && !Restorable(schemas, db, tables) && Restore(schemas, db, tables).None?
  {
    var tables := map[Resellers := JList([]), Packages := JList([]), Orders := JList([JInt(1)])];
    var known := set t | t in tables && Rank(t) < 20;
    assert known == {Resellers, Packages, Orders};
    assert LISTED[6] == Orders && TableEntry(tables, Orders) == JList([JInt(1)]);
    if Orders in schemas {
      assert !ItemFits(schemas[Orders], [JInt(1)][0]);
    }
    assert !TableFits(schemas, Orders, JList([JInt(1)]));
    RestoresExactlyWhen(schemas, db, tables);
  }

  // ---------------------------------------------------------------- the round trip

  /** The rows the database can hold: all columns, values that fit, distinct keys, and a primary key. */
  ghost predicate Holds(layout: Layout, rows: seq<Row>) {
    && layout.key in layout.columns
    && (forall i :: 0 <= i < |rows| ==> RowFits(layout, rows[i]))
    && (forall i, j :: 0 <= i < j < |rows| ==> Get(rows[i], layout.key) != Get(rows[j], layout.key))
  }

  ghost predicate RowFits(layout: Layout, row: Row) {
    row.Keys == layout.columns.Keys && forall c :: c in row ==> layout.columns[c].Fits(row[c])
  }

  ghost predicate WellFormed(schemas: Schemas, db: Tables) {
    forall t :: Rank(t) < 20 ==> t in schemas && t in db && Holds(schemas[t], db[t])
  }

  lemma MoneyText(column: Column, s: string, cents: int)
    requires column.kind == Money && ReadDecimal(s) == Some(cents)
    ensures Decode(column, JStr(s)) == Some(Dec(cents))
  {
  }

  lemma StampText(column: Column, s: string, m: Moment)
    requires column.kind == Stamp && ReadMoment(s) == Some(m)
    ensures Decode(column, JStr(s)) == Some(Time(m))
  {
  }

  lemma DecimalCellBack(column: Column, cents: int)
    requires column.kind == Money
    ensures Decode(column, JStr(WriteDecimal(cents))) == Some(Dec(cents))
  {
    DecimalBack(cents);
    MoneyText(column, WriteDecimal(cents), cents);
  }

  lemma MomentCellBack(column: Column, m: Moment)
    requires column.kind == Stamp && m.Valid()
    ensures Decode(column, JStr(WriteMoment(m))) == Some(Time(m))
  {
    MomentBack(m);
    StampText(column, WriteMoment(m), m);
  }

  lemma CellBack(column: Column, cell: Cell)
    requires column.Fits(cell)
    ensures Decode(column, Encode(cell)) == Some(cell)
  {
    match cell
    case Null =>
    case Int(_) =>
    case Str(_) =>
    case Dec(cents) => DecimalCellBack(column, cents);
    case Time(m) => MomentCellBack(column, m);
  }

  /** A row written and inserted again is the same row. */
  lemma RowBack(layout: Layout, rows: seq<Row>, row: Row)
    requires layout.key in layout.columns && RowFits(layout, row)
    requires forall i :: 0 <= i < |rows| ==> Get(rows[i], layout.key) != Get(row, layout.key)
    ensures LoadItem(layout, rows, EncodeRow(row)) == Some(rows + [row])
  {
    var fields := EncodeRow(row).fields;
    assert layout.key in row && layout.key in fields;
    forall c | c in layout.columns
      ensures Filled(layout.columns[c], Get(fields, c)) == Some(row[c])
    {
      CellBack(layout.columns[c], row[c]);
    }
    assert RowOf(layout, fields) == row;
  }

  lemma NextRow(layout: Layout, rows: seq<Row>, n: nat, item: Json)
    requires Holds(layout, rows) && n < |rows| && item == EncodeRow(rows[n])
    ensures LoadItem(layout, rows[..n], item) == Some(rows[..n + 1])
  {
    forall i | 0 <= i < n
      ensures Get(rows[..n][i], layout.key) != Get(rows[n], layout.key)
    {
    }
    RowBack(layout, rows[..n], rows[n]);
    assert rows[..n] + [rows[n]] == rows[..n + 1];
  }

  lemma LoadMore(layout: Layout, items: seq<Json>, n: nat, before: seq<Row>, after: seq<Row>)
    requires n < |items| && LoadItems(layout, items, n) == Some(before)
    requires LoadItem(layout, before, items[n]) == Some(after)
    ensures LoadItems(layout, items, n + 1) == Some(after)
  {
  }

  lemma {:induction false} TableBack(layout: Layout, rows: seq<Row>, n: nat)
    requires Holds(layout, rows) && n <= |rows|
    ensures LoadItems(layout, EncodeTable(rows).items, n) == Some(rows[..n])
  {
    if n > 0 {
      var m := n - 1;
      TableBack(layout, rows, m);
      NextRow(layout, rows, m, EncodeTable(rows).items[m]);
      LoadMore(layout, EncodeTable(rows).items, m, rows[..m], rows[..m + 1]);
    }
  }

  /** The tables exist. */
  ghost predicate Complete(db: Tables) {
    forall t :: Rank(t) < 20 ==> t in db
  }

  /** The tables while the backup of `db` is restored into `later`: the listed tables before number `n`
      are back, the first `m` rows of number `n` too, and the others are still empty. */
  function Partly(db: Tables, later: Tables, n: nat, m: nat): (between: Tables)
    requires forall t :: t in later && Rank(t) < 20 ==> t in db
  {
    map t | t in later ::
      if Rank(t) == 20 then later[t]
      else if Rank(t) < n then db[t]
      else if Rank(t) == n && m <= |db[t]| then db[t][..m]
      else []
  }

  lemma NothingBack(db: Tables, later: Tables)
    requires forall t :: t in later && Rank(t) < 20 ==> t in db
    ensures Emptied(later, 0) == Partly(db, later, 0, 0)
  {
    assert forall t :: t in later && Rank(t) == 0 ==> db[t][..0] == [];
  }

  lemma FillMore(schemas: Schemas, db: Tables, tables: map<Table, Json>, n: nat, before: Tables, after: Tables)
    requires n < |LISTED| && Fill(schemas, db, tables, n) == Some(before)
    requires FillTable(schemas, before, LISTED[n], TableEntry(tables, LISTED[n])) == Some(after)
    ensures Fill(schemas, db, tables, n + 1) == Some(after)
  {
  }

  lemma {:induction false} FillBack(schemas: Schemas, db: Tables, later: Tables, n: nat)
    requires WellFormed(schemas, db) && Complete(later) && n <= |LISTED|
    ensures Fill(schemas, Emptied(later, 0), BackupOf(db).tables, n) == Some(Partly(db, later, n, 0))
  {
    if n == 0 {
      NothingBack(db, later);
    } else {
      var m := n - 1;
      FillBack(schemas, db, later, m);
      OneTableBack(schemas, db, later, m, n);
      FillMore(schemas, Emptied(later, 0), BackupOf(db).tables, m, Partly(db, later, m, 0), Partly(db, later, n, 0));
    }
  }

  /** Each statement on the way: after `m` rows of table number `n`. */
  lemma RowsBack(schemas: Schemas, db: Tables, later: Tables, n: nat, m: nat)
    requires WellFormed(schemas, db) && Complete(later) && n < |LISTED| && m <= |RowsAt(db, n)|
    ensures LISTED[n] in schemas && LISTED[n] in later && |EncodeTable(RowsAt(db, n)).items| == |RowsAt(db, n)|
    ensures LoadItems(schemas[LISTED[n]], EncodeTable(RowsAt(db, n)).items, m) == Some(RowsAt(db, n)[..m])
    ensures Partly(db, later, n, 0)[LISTED[n] := RowsAt(db, n)[..m]] == Partly(db, later, n, m)
  {
    PlaceIsRank(n);
    TableBack(schemas[LISTED[n]], db[LISTED[n]], m);
    PartlyRows(db, later, n, m);
  }

  function RowsAt(db: Tables, n: nat): (rows: seq<Row>)
    requires n < |LISTED|
  {
    if LISTED[n] in db then db[LISTED[n]] else []
  }

  lemma PartlyRows(db: Tables, later: Tables, n: nat, m: nat)
    requires Complete(db) && Complete(later) && n < |LISTED| && m <= |RowsAt(db, n)|
    ensures LISTED[n] in db && LISTED[n] in later
    ensures Partly(db, later, n, 0)[LISTED[n] := RowsAt(db, n)[..m]] == Partly(db, later, n, m)
  {
    PlaceIsRank(n);
    forall u | u in later && Rank(u) == n
      ensures u == LISTED[n]
    {
      RankIsPlace(u);
    }
  }

  /** All rows of table number `n` are back: on to the next table. */
  lemma PartlyNext(db: Tables, later: Tables, n: nat, next: nat)
    requires Complete(db) && Complete(later) && n < |LISTED| && next == n + 1
    ensures Partly(db, later, n, |RowsAt(db, n)|) == Partly(db, later, next, 0)
  {
    var between, after := Partly(db, later, n, |RowsAt(db, n)|), Partly(db, later, next, 0);
    PlaceIsRank(n);
    forall u | u in later
      ensures between[u] == after[u]
    {
      RankIsPlace(u);
      if Rank(u) == n {
        assert db[u][..|db[u]|] == db[u];
      }
    }
    assert between == after;
  }

  lemma OneTableBack(schemas: Schemas, db: Tables, later: Tables, n: nat, next: nat)
    requires WellFormed(schemas, db) && Complete(later) && n < |LISTED| && next == n + 1
    ensures FillTable(schemas, Partly(db, later, n, 0), LISTED[n], TableEntry(BackupOf(db).tables, LISTED[n]))
            == Some(Partly(db, later, next, 0))
  {
    PlaceIsRank(n);
    assert TableEntry(BackupOf(db).tables, LISTED[n]) == EncodeTable(RowsAt(db, n));
    RowsBack(schemas, db, later, n, |RowsAt(db, n)|);
    PartlyNext(db, later, n, next);
  }

  /** Restoring a backup into any later tables gives every listed table back, row for row, and leaves
      every other table as it was. */
  lemma RestoreGivesBack(schemas: Schemas, db: Tables, later: Tables)
    requires WellFormed(schemas, db) && Complete(later)
    ensures Restore(schemas, later, BackupOf(db).tables).Some?
    ensures var d := Restore(schemas, later, BackupOf(db).tables).value;
            d.Keys == later.Keys && forall t :: t in d ==> d[t] == if Rank(t) < 20 then db[t] else later[t]
  {
    forall n | 0 <= n < |LISTED|
      ensures LISTED[n] in later
    {
      PlaceIsRank(n);
    }
    FillBack(schemas, db, later, |LISTED|);
    AllBack(db, later);
  }

  /** With every table filled, nothing of the later tables is left among the listed ones. */
  lemma AllBack(db: Tables, later: Tables)
    requires forall t :: t in later && Rank(t) < 20 ==> t in db
    ensures var d := Partly(db, later, |LISTED|, 0);
            d.Keys == later.Keys && forall t :: t in d ==> d[t] == if Rank(t) < 20 then db[t] else later[t]
  {
  }

  /** Whatever the document holds, a restore that succeeds leaves the other tables alone, and a listed
      table the document leaves out ends empty. */
  lemma RestoreTouchesListed(schemas: Schemas, db: Tables, tables: map<Table, Json>)
    requires Restore(schemas, db, tables).Some?
    ensures var d := Restore(schemas, db, tables).value;
            && d.Keys == db.Keys
            && forall t :: t in d ==> if Rank(t) == 20 then d[t] == db[t] else t !in tables ==> d[t] == []
  {
    FillTouchesListed(schemas, db, tables, |LISTED|);
  }

  lemma {:induction false} FillTouchesListed(schemas: Schemas, db: Tables, tables: map<Table, Json>, n: nat)
    requires n <= |LISTED| && Fill(schemas, Emptied(db, 0), tables, n).Some?
    requires forall i :: 0 <= i < |LISTED| ==> LISTED[i] in db
    ensures var d := Fill(schemas, Emptied(db, 0), tables, n).value;
            && d.Keys == db.Keys
            && forall t :: t in d ==> if Rank(t) == 20 then d[t] == db[t] else t !in tables ==> d[t] == []
  {
    if n > 0 {
      FillTouchesListed(schemas, db, tables, n - 1);
      PlaceIsRank(n - 1);
    }
  }
}
