/** Lossless export of every table and its import into an empty store. */
module Portability {
  import opened Outcomes
  import opened Sorting
  import opened CellCodec

  type Key = seq<int>

  /** The exported tables. */
  datatype TableName =
    | Meta | Events | Nodes | NodeVersions | Edges | EdgeVersions | SourceReceipts | IngestItems | IngestRulings
    | Migrations | ConsumedInputs | CapturedFeedbackDedup | ProjectionState | PurgeReceipts | SemanticNodeVersions
    | SemanticArtifactBytes | SemanticBusinessNodeVersions | SemanticRelationVersions
    | SemanticBusinessRelationVersions | SemanticCorrectionEvents | SemanticContestEvents | SemanticConfidenceHeads
    | AuthorityKeys | AuthorityLedger | AuthorityProvenance

  /** A row: its primary key, the parent rows its foreign keys name, its other columns. */
  datatype Row = Row(key: Key, parents: seq<(TableName, Key)>, cells: seq<Cell>)
  datatype PortableRow = PortableRow(key: Key, parents: seq<(TableName, Key)>, cells: seq<Json>)

  type Table = map<Key, Row>

  const TABLE_COUNT: nat := 25

  /** The exported tables in insertion order. */
  function TableAt(n: nat): TableName
    requires n < TABLE_COUNT
  {
    match n
    case 0 => Meta
    case 1 => Events
    case 2 => Nodes
    case 3 => NodeVersions
    case 4 => Edges
    case 5 => EdgeVersions
    case 6 => SourceReceipts
    case 7 => IngestItems
    case 8 => IngestRulings
    case 9 => Migrations
    case 10 => ConsumedInputs
    case 11 => CapturedFeedbackDedup
    case 12 => ProjectionState
    case 13 => PurgeReceipts
    case 14 => SemanticNodeVersions
    case 15 => SemanticArtifactBytes
    case 16 => SemanticBusinessNodeVersions
    case 17 => SemanticRelationVersions
    case 18 => SemanticBusinessRelationVersions
    case 19 => SemanticCorrectionEvents
    case 20 => SemanticContestEvents
    case 21 => SemanticConfidenceHeads
    case 22 => AuthorityKeys
    case 23 => AuthorityLedger
    case _ => AuthorityProvenance
  }

  /** Which tables a table's foreign keys refer to. */
  function ParentTables(table: TableName): set<TableName> {
    match table
    case Nodes | SourceReceipts | CapturedFeedbackDedup | IngestRulings | SemanticCorrectionEvents | SemanticContestEvents => {Events}
    case NodeVersions | Edges => {Nodes, Events}
    case EdgeVersions => {Edges, Events}
    case SemanticNodeVersions => {NodeVersions}
    case SemanticArtifactBytes | SemanticBusinessNodeVersions | SemanticConfidenceHeads => {SemanticNodeVersions}
    case SemanticBusinessRelationVersions => {SemanticRelationVersions}
    case _ => {}
  }

  /** Inserting into these tables fires the `content_generation` triggers. */
  predicate Bumps(table: TableName) { table in {Nodes, NodeVersions, Edges, EdgeVersions} }

  /** What the schema checks on a row alone and between two rows of a table (unique
      indexes), and what the trigger does to the counter's text. */
  datatype Schema = Schema(admits: (TableName, Row) -> bool, clash: (TableName, Row, Row) -> bool, bump: Cell -> Cell)

  /** A store; the `content_generation` row of `meta` is held apart from the others. */
  datatype Store = Store(generation: Option<Cell>, tables: map<TableName, Table>)

  datatype Document = Document(generation: Option<Json>, ledger: map<TableName, seq<PortableRow>>)

  // ---------- export ----------

  function PortableCells(cells: seq<Cell>): seq<Json> {
    seq(|cells|, i requires 0 <= i < |cells| => PortableCell(cells[i]))
  }

  function Portable(row: Row): PortableRow { PortableRow(row.key, row.parents, PortableCells(row.cells)) }

  /** The rows of a table ordered by primary key. */
  ghost predicate InOrder(rows: seq<Row>, table: Table) { RowsOf(rows, table) && Covers(rows, table) && Ascending(rows) }

  predicate RowsOf(rows: seq<Row>, table: Table) {
    forall i | 0 <= i < |rows| :: rows[i].key in table && table[rows[i].key] == rows[i]
  }

  ghost predicate Covers(rows: seq<Row>, table: Table) {
    forall k | k in table :: exists i :: 0 <= i < |rows| && rows[i].key == k
  }

  predicate Ascending(rows: seq<Row>) {
    forall i, j | 0 <= i < j < |rows| :: LexLeq(rows[i].key, rows[j].key) && rows[i].key != rows[j].key
  }

  function PortableRows(rows: seq<Row>): seq<PortableRow> {
    seq(|rows|, i requires 0 <= i < |rows| => Portable(rows[i]))
  }

  ghost predicate ExportOf(d: Document, s: Store) {
    && d.generation == (if s.generation.Some? then Some(PortableCell(s.generation.value)) else None)
    && d.ledger.Keys == s.tables.Keys
    && forall t | t in s.tables :: exists rows :: InOrder(rows, s.tables[t]) && d.ledger[t] == PortableRows(rows)
  }

  // ---------- import ----------

  function DatabaseCells(cells: seq<Json>): Result<seq<Cell>> {
    if cells == [] then Ok([])
    else
      var init :- DatabaseCells(cells[..|cells| - 1]);
      var last :- DatabaseCell(cells[|cells| - 1]);
      :- Check(Storable(last));
      Ok(init + [last])
  }

  predicate NoClash(x: Schema, table: TableName, rows: Table, added: Row) {
    forall k | k in rows :: !x.clash(table, rows[k], added)
  }

  predicate ParentsPresent(tables: map<TableName, Table>, parents: seq<(TableName, Key)>) {
    forall p | p in parents :: p.0 in tables && p.1 in tables[p.0]
  }

  function Inserted(x: Schema, s: Store, table: TableName, row: PortableRow): Result<Store> {
    var cells :- DatabaseCells(row.cells);
    var added := Row(row.key, row.parents, cells);
    :- Check(table in s.tables && row.key !in s.tables[table] && x.admits(table, added));
    :- Check(NoClash(x, table, s.tables[table], added) && ParentsPresent(s.tables, row.parents));
    Ok(Store(if Bumps(table) && s.generation.Some? then Some(x.bump(s.generation.value)) else s.generation,
             s.tables[table := s.tables[table][row.key := added]]))
  }

  function RowsInserted(x: Schema, s: Store, table: TableName, rows: seq<PortableRow>): Result<Store> {
    if rows == [] then Ok(s)
    else
      var init :- RowsInserted(x, s, table, rows[..|rows| - 1]);
      Inserted(x, init, table, rows[|rows| - 1])
  }

  function TablesInserted(x: Schema, s: Store, d: Document, n: nat): Result<Store>
    requires n <= TABLE_COUNT
  {
    if n == 0 then Ok(s)
    else
      var init :- TablesInserted(x, s, d, n - 1);
      :- Check(TableAt(n - 1) in d.ledger);
      RowsInserted(x, init, TableAt(n - 1), d.ledger[TableAt(n - 1)])
  }

  /** Deletes the destination's own metadata, inserts every row, then restores the source's counter. */
  function Imported(x: Schema, s: Store, d: Document): Result<Store> {
    if (exists t: TableName :: t !in d.ledger || t !in s.tables || (t != Meta && s.tables[t] != map[])) then Rejected
    else
      var generation :- if d.generation.Some? then DatabaseCell(d.generation.value) else Ok(Null);
      :- Check(Storable(generation));
      var cleared := Store(if d.generation.Some? then Some(generation) else None, s.tables[Meta := map[]]);
      var filled :- TablesInserted(x, cleared, d, TABLE_COUNT);
      Ok(if d.generation.Some? then filled.(generation := Some(generation)) else filled)
  }

  /** The tables, filled in place inside the caller's transaction. */
  class PortableStore {
    const schema: Schema
    var generation: Option<Cell>
    var tables: map<TableName, Table>

    constructor (x: Schema, s: Store)
      ensures schema == x && Value() == s
    {
      schema, generation, tables := x, s.generation, s.tables;
    }

    function Value(): Store
      reads this
    {
      Store(generation, tables)
    }

    method InsertRow(table: TableName, row: PortableRow) returns (ok: bool)
      modifies this
      ensures ok == Inserted(schema, old(Value()), table, row).Ok?
      ensures Value() == if ok then Inserted(schema, old(Value()), table, row).value else old(Value())
    {
      hide DatabaseCells, Bumps, NoClash, ParentsPresent;
      var cells := DatabaseCells(row.cells);
      if cells.Rejected? || table !in tables || row.key in tables[table] {
        return false;
      }
      var added := Row(row.key, row.parents, cells.value);
      if !schema.admits(table, added) || !NoClash(schema, table, tables[table], added) || !ParentsPresent(tables, row.parents) {
        return false;
      }
      tables := tables[table := tables[table][row.key := added]];
      if Bumps(table) && generation.Some? {
        generation := Some(schema.bump(generation.value));
      }
      ok := true;
    }

    method InsertTable(table: TableName, rows: seq<PortableRow>) returns (ok: bool)
      modifies this
      ensures ok == RowsInserted(schema, old(Value()), table, rows).Ok?
      ensures ok ==> Value() == RowsInserted(schema, old(Value()), table, rows).value
    {
      hide Inserted;
      ghost var before := Value();
      for k := 0 to |rows|
        invariant RowsInserted(schema, before, table, rows[..k]) == Ok(Value())
      {
        assert rows[..k + 1][..k] == rows[..k];
        var inserted := InsertRow(table, rows[k]);
        if !inserted {
          InsertFailureSpreads(schema, before, table, rows, k + 1);
          return false;
        }
      }
      assert rows[..|rows|] == rows;
      ok := true;
    }

    /** An exception leaves the store as it was. */
    method ImportLedger(d: Document) returns (ok: bool)
      modifies this
      ensures ok == Imported(schema, old(Value()), d).Ok?
      ensures Value() == if ok then Imported(schema, old(Value()), d).value else old(Value())
    {
      hide RowsInserted, TableAt;
      if (exists t: TableName :: t !in d.ledger || t !in tables || (t != Meta && tables[t] != map[])) {
        return false;
      }
      var restored := if d.generation.Some? then DatabaseCell(d.generation.value) else Ok(Null);
      if restored.Rejected? || !Storable(restored.value) {
        return false;
      }
      var generation0, tables0 := generation, tables;
      generation := if d.generation.Some? then Some(restored.value) else None;
      tables := tables[Meta := map[]];
      ghost var cleared := Value();
      for n := 0 to TABLE_COUNT
        invariant TablesInserted(schema, cleared, d, n) == Ok(Value())
      {
        ghost var before := Value();
        var inserted := InsertTable(TableAt(n), d.ledger[TableAt(n)]);
        if !inserted {
          TableFailureSpreads(schema, cleared, d, n + 1, TABLE_COUNT);
          generation, tables := generation0, tables0;
          return false;
        }
      }
      if d.generation.Some? {
        generation := Some(restored.value);
      }
      ok := true;
    }
  }

  lemma {:induction false} InsertFailureSpreads(x: Schema, s: Store, table: TableName, rows: seq<PortableRow>, k: nat)
    requires k <= |rows| && RowsInserted(x, s, table, rows[..k]).Rejected?
    ensures RowsInserted(x, s, table, rows).Rejected?
    decreases |rows|
  {
    if k < |rows| {
      assert rows[..|rows| - 1][..k] == rows[..k];
      InsertFailureSpreads(x, s, table, rows[..|rows| - 1], k);
    } else {
      assert rows[..k] == rows;
    }
  }

  lemma {:induction false} TableFailureSpreads(x: Schema, s: Store, d: Document, n: nat, m: nat)
    requires n <= m <= TABLE_COUNT && TablesInserted(x, s, d, n).Rejected?
    ensures TablesInserted(x, s, d, m).Rejected?
  {
    hide TableAt, RowsInserted;
    if n < m {
      TableFailureSpreads(x, s, d, n, m - 1);
    }
  }

  // ---------- lossless ----------

  /** A row as its table can hold it. */
  ghost predicate RowOk(x: Schema, tables: map<TableName, Table>, t: TableName, k: Key)
    requires t in tables && k in tables[t]
  {
    var row := tables[t][k];
    && row.key == k && x.admits(t, row)
    && (forall i | 0 <= i < |row.cells| :: Storable(row.cells[i]))
    && (forall p | p in row.parents :: p.0 in ParentTables(t) && p.0 in tables && p.1 in tables[p.0])
    && (forall j | j in tables[t] && j != k :: !x.clash(t, tables[t][j], row))
  }

  /** What the schema's constraints make of every store. */
  ghost predicate Exportable(x: Schema, s: Store) {
    && (forall t: TableName :: t in s.tables)
    && (s.generation.Some? ==> Storable(s.generation.value))
    && forall t, k | t in s.tables && k in s.tables[t] :: RowOk(x, s.tables, t, k)
  }

  /** A destination into which an import is allowed. */
  predicate Empty(s: Store) {
    (forall t: TableName :: t in s.tables) && forall t | t in s.tables :: t != Meta ==> s.tables[t] == map[]
  }

  lemma {:induction false} CellsRoundTrip(cells: seq<Cell>)
    requires forall i | 0 <= i < |cells| :: Storable(cells[i])
    ensures DatabaseCells(PortableCells(cells)) == Ok(cells)
  {
    var n := |cells| - 1;
    if cells != [] {
      CellsRoundTrip(cells[..n]);
      CellRoundTrip(cells[n]);
      assert PortableCells(cells)[..n] == PortableCells(cells[..n]);
      assert cells == cells[..n] + [cells[n]];
    }
  }

  /** The rows already inserted while a table is being filled. */
  function Prefix(rows: seq<Row>, m: nat): Table
    requires m <= |rows|
  {
    if m == 0 then map[] else Prefix(rows, m - 1)[rows[m - 1].key := rows[m - 1]]
  }

  /** Where a table stands in the insertion order. */
  function Index(t: TableName): nat {
    match t
    case Meta => 0
    case Events => 1
    case Nodes => 2
    case NodeVersions => 3
    case Edges => 4
    case EdgeVersions => 5
    case SourceReceipts => 6
    case IngestItems => 7
    case IngestRulings => 8
    case Migrations => 9
    case ConsumedInputs => 10
    case CapturedFeedbackDedup => 11
    case ProjectionState => 12
    case PurgeReceipts => 13
    case SemanticNodeVersions => 14
    case SemanticArtifactBytes => 15
    case SemanticBusinessNodeVersions => 16
    case SemanticRelationVersions => 17
    case SemanticBusinessRelationVersions => 18
    case SemanticCorrectionEvents => 19
    case SemanticContestEvents => 20
    case SemanticConfidenceHeads => 21
    case AuthorityKeys => 22
    case AuthorityLedger => 23
    case AuthorityProvenance => 24
  }

  lemma TablesAreIndexed(n: nat)
    requires n < TABLE_COUNT
    ensures Index(TableAt(n)) == n
  {
  }

  lemma IndexesAreTables(t: TableName)
    ensures Index(t) < TABLE_COUNT && TableAt(Index(t)) == t
  {
  }

  /** Every foreign key refers to a table that is filled earlier. */
  lemma ParentsComeFirst(t: TableName, p: TableName)
    requires p in ParentTables(t)
    ensures Index(p) < Index(t)
  {
  }

  lemma {:induction false} PrefixHolds(rows: seq<Row>, table: Table, m: nat)
    requires RowsOf(rows, table) && Ascending(rows) && m <= |rows|
    ensures forall i | 0 <= i < m :: rows[i].key in Prefix(rows, m)
    ensures forall i | m <= i < |rows| :: rows[i].key !in Prefix(rows, m)
    ensures forall k | k in Prefix(rows, m) :: k in table && Prefix(rows, m)[k] == table[k]
  {
    hide LexLeq;
    if m > 0 {
      PrefixHolds(rows, table, m - 1);
    }
  }

  lemma PrefixIsTable(rows: seq<Row>, table: Table)
    requires InOrder(rows, table)
    ensures Prefix(rows, |rows|) == table
  {
    PrefixHolds(rows, table, |rows|);
    hide Prefix, Ascending;
  }

  lemma RowGoesIn(x: Schema, s: Store, st: Store, t: TableName, rows: seq<Row>, m: nat)
    requires Exportable(x, s) && InOrder(rows, s.tables[t]) && m < |rows|
    requires t in st.tables && st.tables[t] == Prefix(rows, m)
    requires forall p | p in ParentTables(t) :: p in st.tables && st.tables[p] == s.tables[p]
    ensures var r := Inserted(x, st, t, Portable(rows[m]));
      && r.Ok? && r.value.generation.Some? == st.generation.Some? && r.value.tables == st.tables[t := Prefix(rows, m + 1)]
  {
    PrefixHolds(rows, s.tables[t], m);
    PrefixGrows(rows, m);
    assert RowOk(x, s.tables, t, rows[m].key);
    hide Exportable, ParentTables, Covers, Ascending, Prefix, Inserted, Bumps;
    RowAccepted(x, st, t, rows[m]);
  }

  lemma RowAccepted(x: Schema, st: Store, t: TableName, row: Row)
    requires t in st.tables && row.key !in st.tables[t] && x.admits(t, row)
    requires forall i | 0 <= i < |row.cells| :: Storable(row.cells[i])
    requires forall k | k in st.tables[t] :: !x.clash(t, st.tables[t][k], row)
    requires forall p | p in row.parents :: p.0 in st.tables && p.1 in st.tables[p.0]
    ensures var r := Inserted(x, st, t, Portable(row));
      && r.Ok? && r.value.generation.Some? == st.generation.Some?
      && r.value.tables == st.tables[t := st.tables[t][row.key := row]]
  {
    CellsRoundTrip(row.cells);
    hide DatabaseCells, PortableCells, Bumps;
  }

  lemma PrefixGrows(rows: seq<Row>, m: nat)
    requires m < |rows|
    ensures Prefix(rows, m + 1) == Prefix(rows, m)[rows[m].key := rows[m]]
  {
  }

  lemma {:induction false} TableGoesIn(x: Schema, s: Store, st: Store, t: TableName, rows: seq<Row>, m: nat)
    requires Exportable(x, s) && InOrder(rows, s.tables[t]) && m <= |rows|
    requires t in st.tables && st.tables[t] == map[]
    requires forall p | p in ParentTables(t) :: p != t && p in st.tables && st.tables[p] == s.tables[p]
    ensures var r := RowsInserted(x, st, t, PortableRows(rows)[..m]);
      && r.Ok? && r.value.generation.Some? == st.generation.Some? && r.value.tables == st.tables[t := Prefix(rows, m)]
  {
    hide Exportable, InOrder, ParentTables, Inserted, PortableRows, Portable, RowsInserted, Prefix;
    RowsUnfold(x, st, t, rows, m);
    if m > 0 {
      TableGoesIn(x, s, st, t, rows, m - 1);
      RowGoesIn(x, s, RowsInserted(x, st, t, PortableRows(rows)[..m - 1]).value, t, rows, m - 1);
    }
  }

  lemma RowsUnfold(x: Schema, st: Store, t: TableName, rows: seq<Row>, m: nat)
    requires m <= |rows|
    ensures |PortableRows(rows)| == |rows|
    ensures m == 0 ==> RowsInserted(x, st, t, PortableRows(rows)[..m]) == Ok(st) && Prefix(rows, 0) == map[]
    ensures m > 0 ==>
      var init := RowsInserted(x, st, t, PortableRows(rows)[..m - 1]);
      RowsInserted(x, st, t, PortableRows(rows)[..m]) == if init.Ok? then Inserted(x, init.value, t, Portable(rows[m - 1])) else Rejected
  {
    hide Inserted;
    if m > 0 {
      assert PortableRows(rows)[..m][..m - 1] == PortableRows(rows)[..m - 1];
    }
  }

  lemma PortableLength(rows: seq<Row>)
    ensures |PortableRows(rows)| == |rows|
  {
  }

  ghost predicate FilledUpTo(st: Store, s: Store, n: nat) {
    forall t: TableName :: t in st.tables && t in s.tables && st.tables[t] == if Index(t) < n then s.tables[t] else map[]
  }

  lemma {:induction false} TablesGoIn(x: Schema, s: Store, st: Store, d: Document, n: nat)
    requires Exportable(x, s) && ExportOf(d, s) && FilledUpTo(st, s, 0) && n <= TABLE_COUNT
    ensures var r := TablesInserted(x, st, d, n);
      r.Ok? && r.value.generation.Some? == st.generation.Some? && FilledUpTo(r.value, s, n)
  {
    hide TableAt, Index, RowsInserted, RowOk, InOrder, PortableRows, ParentTables, Prefix;
    if n > 0 {
      TablesGoIn(x, s, st, d, n - 1);
      var before := TablesInserted(x, st, d, n - 1).value;
      var t := TableAt(n - 1);
      TablesAreIndexed(n - 1);
      var rows :| InOrder(rows, s.tables[t]) && d.ledger[t] == PortableRows(rows);
      forall p | p in ParentTables(t)
        ensures p != t && before.tables[p] == s.tables[p]
      {
        ParentsComeFirst(t, p);
      }
      TableGoesIn(x, s, before, t, rows, |rows|);
      assert PortableRows(rows)[..|rows|] == PortableRows(rows) by { PortableLength(rows); }
      PrefixIsTable(rows, s.tables[t]);
      var after := RowsInserted(x, before, t, d.ledger[t]).value;
      forall u: TableName
        ensures u in after.tables && after.tables[u] == if Index(u) < n then s.tables[u] else map[]
      {
        IndexesAreTables(u);
        assert u == t || Index(u) != n - 1;
      }
    }
  }

  /** Importing the export of any store into an empty one reproduces the store,
      content generation included. */
  lemma ImportOfExport(x: Schema, s: Store, destination: Store, d: Document)
    requires Exportable(x, s) && ExportOf(d, s) && Empty(destination)
    ensures Imported(x, destination, d) == Ok(s)
  {
    hide TableAt, TablesInserted, RowOk, InOrder;
    if s.generation.Some? {
      CellRoundTrip(s.generation.value);
    }
    var cleared := Store(s.generation, destination.tables[Meta := map[]]);
    assert FilledUpTo(cleared, s, 0);
    TablesGoIn(x, s, cleared, d, TABLE_COUNT);
    var filled := TablesInserted(x, cleared, d, TABLE_COUNT).value;
    forall t: TableName
      ensures filled.tables[t] == s.tables[t]
    {
      IndexesAreTables(t);
    }
    assert filled.tables == s.tables;
  }

  lemma InOrderOnce(a: seq<Row>, b: seq<Row>, table: Table)
    requires InOrder(a, table) && InOrder(b, table)
    ensures a == b
  {
    var key := (r: Row) => r.key;
    RowsAsSet(a, table);
    RowsAsSet(b, table);
    assert SortedBy(a, key) && SortedBy(b, key);
    hide InOrder, LexLeq;
    SortedUnique(a, b, key);
  }

  lemma RowsAsSet(rows: seq<Row>, table: Table)
    requires InOrder(rows, table)
    ensures multiset(rows) == multiset(table.Values)
    ensures KeysTellApart(multiset(rows), (r: Row) => r.key)
  {
    hide LexLeq;
    DistinctRows(rows);
    assert forall r :: r in rows <==> r in table.Values;
  }

  lemma {:induction false} DistinctRows(rows: seq<Row>)
    requires forall i, j | 0 <= i < j < |rows| :: rows[i].key != rows[j].key
    ensures forall r :: multiset(rows)[r] == if r in rows then 1 else 0
  {
    if rows != [] {
      DistinctRows(rows[1..]);
      assert rows == [rows[0]] + rows[1..];
    }
  }

  /** A store has one export, so the digests taken again after an import never differ. */
  lemma ExportIsUnique(s: Store, d: Document, e: Document)
    requires ExportOf(d, s) && ExportOf(e, s)
    ensures d == e
  {
    hide InOrder, PortableRows;
    forall t | t in s.tables
      ensures d.ledger[t] == e.ledger[t]
    {
      var a :| InOrder(a, s.tables[t]) && d.ledger[t] == PortableRows(a);
      var b :| InOrder(b, s.tables[t]) && e.ledger[t] == PortableRows(b);
      InOrderOnce(a, b, s.tables[t]);
    }
    assert d.ledger == e.ledger;
  }

  // ---------- every store has an export ----------

  lemma OncePerRow(rows: seq<Row>, all: set<Row>)
    requires multiset(rows) == multiset(all)
    ensures forall i, j | 0 <= i < j < |rows| :: rows[i] != rows[j]
  {
    forall i, j | 0 <= i < j < |rows|
      ensures rows[i] != rows[j]
    {
      assert rows == rows[..j] + [rows[j]] + rows[j + 1..];
      assert rows[i] in rows[..j];
      assert rows[i] == rows[j] ==> multiset(rows)[rows[j]] >= 2;
    }
  }

  lemma OrderedFromSet(rows: seq<Row>, all: set<Row>, table: Table)
    requires SortedBy(rows, (r: Row) => r.key) && multiset(rows) == multiset(all)
    requires forall r | r in all :: r.key in table && table[r.key] == r
    requires forall k | k in table :: table[k] in all && table[k].key == k
    ensures InOrder(rows, table)
  {
    hide LexLeq;
    assert forall r :: r in rows <==> r in multiset(rows);
    forall k | k in table
      ensures exists i :: 0 <= i < |rows| && rows[i].key == k
    {
      assert table[k] in multiset(all);
      var i :| 0 <= i < |rows| && rows[i] == table[k];
      assert rows[i].key == k;
    }
    forall i | 0 <= i < |rows|
      ensures rows[i].key in table && table[rows[i].key] == rows[i]
    {
      assert rows[i] in multiset(all);
    }
    OncePerRow(rows, all);
    forall i, j | 0 <= i < j < |rows|
      ensures LexLeq(rows[i].key, rows[j].key)
    {
      var key := (r: Row) => r.key;
      assert LexLeq(key(rows[i]), key(rows[j]));
    }
  }

  /** The rows of one table ordered by primary key. */
  method OrderedRows(table: Table) returns (rows: seq<Row>)
    requires forall k | k in table :: table[k].key == k
    ensures InOrder(rows, table)
  {
    var todo := table.Keys;
    ghost var taken: set<Row> := {};
    rows := [];
    while todo != {}
      invariant todo <= table.Keys && taken == set k | k in table && k !in todo :: table[k]
      invariant SortedBy(rows, (r: Row) => r.key) && multiset(rows) == multiset(taken)
    {
      var k :| k in todo;
      assert table[k] !in taken;
      InsertSorted(table[k], rows, (r: Row) => r.key);
      rows := Insert(table[k], rows, (r: Row) => r.key);
      taken := taken + {table[k]};
      todo := todo - {k};
    }
    OrderedFromSet(rows, taken, table);
  }

  method Export(x: Schema, s: Store) returns (d: Document)
    requires Exportable(x, s)
    ensures ExportOf(d, s)
  {
    hide InOrder;
    assert forall t, k | t in s.tables && k in s.tables[t] :: s.tables[t][k].key == k by {
      assert forall t, k | t in s.tables && k in s.tables[t] :: RowOk(x, s.tables, t, k);
    }
    hide RowOk;
    var ledger: map<TableName, seq<PortableRow>> := map[];
    for n := 0 to TABLE_COUNT
      invariant forall t: TableName :: t in ledger <==> Index(t) < n
      invariant forall t | t in ledger :: exists rows :: InOrder(rows, s.tables[t]) && ledger[t] == PortableRows(rows)
    {
      TablesAreIndexed(n);
      var rows := OrderedRows(s.tables[TableAt(n)]);
      ledger := ledger[TableAt(n) := PortableRows(rows)];
      forall t: TableName
        ensures t in ledger <==> Index(t) < n + 1
      {
        IndexesAreTables(t);
      }
    }
    forall t: TableName
      ensures t in ledger
    {
      IndexesAreTables(t);
    }
    d := Document(if s.generation.Some? then Some(PortableCell(s.generation.value)) else None, ledger);
  }
}
