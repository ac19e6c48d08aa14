/** What an accepted document has put into the store: its own rows, all of them, and only as the schema admits them. */
module ImportRules {
  import opened Outcomes
  import opened CellCodec
  import opened Portability

  lemma {:induction false} CellsGot(cells: seq<Json>)
    requires DatabaseCells(cells).Ok?
    ensures var got := DatabaseCells(cells).value; PortableCells(got) == cells && forall i | 0 <= i < |got| :: Storable(got[i])
  {
    if cells != [] {
      var n := |cells| - 1;
      CellsGot(cells[..n]);
      DocumentRoundTrip(cells[n]);
      var init, last := DatabaseCells(cells[..n]).value, DatabaseCell(cells[n]).value;
      assert PortableCells(init + [last]) == PortableCells(init) + [PortableCell(last)];
      assert cells == cells[..n] + [cells[n]];
    }
  }

  /** The stored row is the document's, re-exports as it, and satisfies its table's own checks. */
  ghost predicate RowGot(x: Schema, t: TableName, row: Row, p: PortableRow) {
    && row.key == p.key && Portable(row) == p && x.admits(t, row) && forall i | 0 <= i < |row.cells| :: Storable(row.cells[i])
  }

  /** The table holds what it held and the first n rows, which have keys of their own and clash with nothing before them. */
  ghost predicate TableGot(x: Schema, t: TableName, base: Table, got: Table, rows: seq<PortableRow>, n: nat)
    requires n <= |rows|
  {
    && Kept(base, got)
    && (forall i | 0 <= i < n :: RowIn(x, t, base, got, rows[i]))
    && OnlyThese(base, got, rows, n)
    && (forall i, j | 0 <= i < j < n :: rows[i].key != rows[j].key)
    && (forall i, j | 0 <= i < j < n :: NoClashAt(x, t, got, rows, i, j))
  }

  predicate Kept(a: Table, b: Table) { forall k | k in a :: k in b && b[k] == a[k] }

  ghost predicate RowIn(x: Schema, t: TableName, base: Table, got: Table, p: PortableRow) {
    p.key in got && p.key !in base && RowGot(x, t, got[p.key], p)
  }

  ghost predicate OnlyThese(base: Table, got: Table, rows: seq<PortableRow>, n: nat)
    requires n <= |rows|
  {
    forall k | k in got :: k in base || exists i :: 0 <= i < n && rows[i].key == k
  }

  ghost predicate NoClashAt(x: Schema, t: TableName, got: Table, rows: seq<PortableRow>, i: int, j: int) {
    0 <= i < |rows| && 0 <= j < |rows| && rows[i].key in got && rows[j].key in got && !x.clash(t, got[rows[i].key], got[rows[j].key])
  }

  /** The parents of the first n rows are in the store. */
  ghost predicate ParentsGot(tables: map<TableName, Table>, rows: seq<PortableRow>, n: nat)
    requires n <= |rows|
  {
    forall i, p | 0 <= i < n && p in rows[i].parents :: p.0 in tables && p.1 in tables[p.0]
  }

  /** Tables keep their rows. */
  predicate Grow(a: map<TableName, Table>, b: map<TableName, Table>) {
    forall t | t in a :: t in b && Kept(a[t], b[t])
  }

  lemma RowInserted(x: Schema, s: Store, t: TableName, row: PortableRow)
    requires Inserted(x, s, t, row).Ok?
    ensures var r := Inserted(x, s, t, row).value;
      && t in s.tables && t in r.tables && row.key !in s.tables[t] && row.key in r.tables[t]
      && r.tables == s.tables[t := s.tables[t][row.key := r.tables[t][row.key]]] && r.generation.Some? == s.generation.Some?
      && RowGot(x, t, r.tables[t][row.key], row) && (forall k | k in s.tables[t] :: !x.clash(t, s.tables[t][k], r.tables[t][row.key]))
      && forall p | p in row.parents :: p.0 in s.tables && p.1 in s.tables[p.0]
  {
    CellsGot(row.cells);
    hide DatabaseCells, PortableCells, Bumps;
  }

  lemma {:induction false} TableInserted(x: Schema, s: Store, t: TableName, rows: seq<PortableRow>, n: nat)
    requires n <= |rows| && RowsInserted(x, s, t, rows[..n]).Ok? && t in s.tables
    ensures TableStep(x, s, RowsInserted(x, s, t, rows[..n]).value, t, rows, n)
  {
    hide Inserted, TableStep;
    if n > 0 {
      assert rows[..n][..n - 1] == rows[..n - 1];
      TableInserted(x, s, t, rows, n - 1);
      var before := RowsInserted(x, s, t, rows[..n - 1]).value;
      RowStep(x, s, before, t, rows, n);
    } else {
      NothingInserted(x, s, t, rows);
    }
  }

  ghost predicate TableStep(x: Schema, s: Store, r: Store, t: TableName, rows: seq<PortableRow>, n: nat)
    requires n <= |rows| && t in s.tables
  {
    && t in r.tables && r.tables == s.tables[t := r.tables[t]] && r.generation.Some? == s.generation.Some?
    && TableGot(x, t, s.tables[t], r.tables[t], rows, n) && ParentsGot(r.tables, rows, n)
  }

  lemma NothingInserted(x: Schema, s: Store, t: TableName, rows: seq<PortableRow>)
    requires t in s.tables
    ensures TableStep(x, s, s, t, rows, 0)
  {
  }

  lemma RowStep(x: Schema, s: Store, before: Store, t: TableName, rows: seq<PortableRow>, n: nat)
    requires 0 < n <= |rows| && t in s.tables && TableStep(x, s, before, t, rows, n - 1) && Inserted(x, before, t, rows[n - 1]).Ok?
    ensures TableStep(x, s, Inserted(x, before, t, rows[n - 1]).value, t, rows, n)
  {
    RowInserted(x, before, t, rows[n - 1]);
    hide Inserted, RowGot, TableGot, ParentsGot;
    var after := Inserted(x, before, t, rows[n - 1]).value;
    RowExtends(x, t, s.tables[t], before.tables[t], after.tables[t], rows, n);
    ParentsExtend(before.tables, after.tables, rows, n);
  }

  lemma ParentsStay(a: map<TableName, Table>, b: map<TableName, Table>, rows: seq<PortableRow>, n: nat)
    requires n <= |rows| && Grow(a, b) && ParentsGot(a, rows, n)
    ensures ParentsGot(b, rows, n)
  {
  }

  lemma ParentsExtend(a: map<TableName, Table>, b: map<TableName, Table>, rows: seq<PortableRow>, n: nat)
    requires 0 < n <= |rows| && Grow(a, b) && ParentsGot(a, rows, n - 1)
    requires forall p | p in rows[n - 1].parents :: p.0 in a && p.1 in a[p.0]
    ensures ParentsGot(b, rows, n)
  {
  }

  lemma RowExtends(x: Schema, t: TableName, base: Table, before: Table, after: Table, rows: seq<PortableRow>, n: nat)
    requires 0 < n <= |rows| && TableGot(x, t, base, before, rows, n - 1)
    requires var row := rows[n - 1];
      && row.key !in before && row.key in after && after == before[row.key := after[row.key]]
      && RowGot(x, t, after[row.key], row) && forall k | k in before :: !x.clash(t, before[k], after[row.key])
    ensures TableGot(x, t, base, after, rows, n)
  {
    hide RowGot, NoClashAt, OnlyThese, RowIn;
    RowsStayIn(x, t, base, before, after, rows, n);
    OnlyTheseExtend(base, before, after, rows, n);
    LastIn(x, t, base, before, after, rows[n - 1]);
    ClashesStayOut(x, t, before, after, rows, n);
    hide Kept;
    assert forall i | 0 <= i < n :: i == n - 1 || RowIn(x, t, base, after, rows[i]);
  }

  lemma LastIn(x: Schema, t: TableName, base: Table, before: Table, after: Table, row: PortableRow)
    requires Kept(base, before) && row.key !in before && row.key in after && RowGot(x, t, after[row.key], row)
    requires after == before[row.key := after[row.key]]
    ensures RowIn(x, t, base, after, row) && Kept(base, after)
  {
    hide RowGot;
  }

  lemma ClashesStayOut(x: Schema, t: TableName, before: Table, after: Table, rows: seq<PortableRow>, n: nat)
    requires 0 < n <= |rows| && rows[n - 1].key in after
    requires forall i | 0 <= i < n - 1 :: rows[i].key in before && rows[i].key in after && after[rows[i].key] == before[rows[i].key]
    requires forall i, j | 0 <= i < j < n - 1 :: NoClashAt(x, t, before, rows, i, j)
    requires forall k | k in before :: !x.clash(t, before[k], after[rows[n - 1].key])
    ensures forall i, j | 0 <= i < j < n :: NoClashAt(x, t, after, rows, i, j)
  {
    forall i, j | 0 <= i < j < n
      ensures NoClashAt(x, t, after, rows, i, j)
    {
      if j < n - 1 {
        assert NoClashAt(x, t, before, rows, i, j);
      }
    }
  }

  lemma RowsStayIn(x: Schema, t: TableName, base: Table, before: Table, after: Table, rows: seq<PortableRow>, n: nat)
    requires 0 < n <= |rows| && rows[n - 1].key !in before && rows[n - 1].key in after && after == before[rows[n - 1].key := after[rows[n - 1].key]]
    requires forall i | 0 <= i < n - 1 :: RowIn(x, t, base, before, rows[i])
    ensures Kept(before, after)
    ensures forall i | 0 <= i < n - 1 :: RowIn(x, t, base, after, rows[i])
    ensures forall i | 0 <= i < n - 1 :: rows[i].key in before && rows[i].key in after && after[rows[i].key] == before[rows[i].key]
    ensures forall i | 0 <= i < n - 1 :: rows[i].key != rows[n - 1].key
  {
    hide RowGot;
  }

  lemma OnlyTheseExtend(base: Table, before: Table, after: Table, rows: seq<PortableRow>, n: nat)
    requires 0 < n <= |rows| && OnlyThese(base, before, rows, n - 1) && rows[n - 1].key in after
    requires after == before[rows[n - 1].key := after[rows[n - 1].key]]
    ensures OnlyThese(base, after, rows, n)
  {
    forall k | k in after
      ensures k in base || exists i :: 0 <= i < n && rows[i].key == k
    {
      if k == rows[n - 1].key {
        assert rows[n - 1].key == k;
      } else if k !in base {
        var i :| 0 <= i < n - 1 && rows[i].key == k;
        assert rows[i].key == k;
      }
    }
  }

  lemma FilledKept(x: Schema, t: TableName, base: Table, got: Table, rows: seq<PortableRow>)
    requires TableGot(x, t, base, got, rows, |rows|)
    ensures Kept(base, got)
  {
    hide RowIn, OnlyThese, Kept;
  }

  /** Every table filled so far holds exactly the document's rows; the others are empty. */
  ghost predicate StoreGot(x: Schema, tables: map<TableName, Table>, d: Document, n: nat) {
    forall t: TableName :: t in tables && if Index(t) < n then t in d.ledger && TableGot(x, t, map[], tables[t], d.ledger[t], |d.ledger[t]|)
                                                               && ParentsGot(tables, d.ledger[t], |d.ledger[t]|)
                           else tables[t] == map[]
  }

  lemma {:induction false} TablesGot(x: Schema, s: Store, d: Document, n: nat)
    requires n <= TABLE_COUNT && TablesInserted(x, s, d, n).Ok? && StoreGot(x, s.tables, d, 0)
    ensures var r := TablesInserted(x, s, d, n).value; StoreGot(x, r.tables, d, n) && r.generation.Some? == s.generation.Some?
  {
    hide TableAt, Index, RowsInserted, TableGot, ParentsGot;
    if n > 0 {
      TablesGot(x, s, d, n - 1);
      var before := TablesInserted(x, s, d, n - 1).value;
      var t := TableAt(n - 1);
      TablesAreIndexed(n - 1);
      var rows := d.ledger[t];
      assert rows[..|rows|] == rows;
      TableInserted(x, before, t, rows, |rows|);
      assert TableStep(x, before, RowsInserted(x, before, t, rows).value, t, rows, |rows|);
      var after := RowsInserted(x, before, t, rows).value;
      forall u: TableName
        ensures u in after.tables && if Index(u) < n then u in d.ledger && TableGot(x, u, map[], after.tables[u], d.ledger[u], |d.ledger[u]|)
                                                          && ParentsGot(after.tables, d.ledger[u], |d.ledger[u]|)
                                     else after.tables[u] == map[]
      {
        IndexesAreTables(u);
        if u != t && Index(u) < n {
          assert Index(u) < n - 1;
          assert Grow(before.tables, after.tables) by { assert Kept(before.tables[t], after.tables[t]) by { FilledKept(x, t, before.tables[t], after.tables[t], rows); } }
          ParentsStay(before.tables, after.tables, d.ledger[u], |d.ledger[u]|);
        }
      }
    }
  }

  /** An import that is accepted has filled every table with exactly the document's rows: each
      re-exports as it was written, under a key of its own, admitted by its table, with no
      clash and with its parents present; and it restores the document's generation. */
  lemma ImportIsFaithful(x: Schema, s: Store, d: Document)
    requires Imported(x, s, d).Ok?
    ensures var r := Imported(x, s, d).value;
      && (forall t: TableName :: t in r.tables && t in d.ledger && TableGot(x, t, map[], r.tables[t], d.ledger[t], |d.ledger[t]|)
            && ParentsGot(r.tables, d.ledger[t], |d.ledger[t]|))
      && (if d.generation.Some? then r.generation.Some? && PortableCell(r.generation.value) == d.generation.value else r.generation == None)
  {
    hide TableAt, TablesInserted, TableGot, ParentsGot;
    if d.generation.Some? {
      DocumentRoundTrip(d.generation.value);
    }
    var generation := if d.generation.Some? then Some(DatabaseCell(d.generation.value).value) else None;
    var cleared := Store(generation, s.tables[Meta := map[]]);
    assert StoreGot(x, cleared.tables, d, 0);
    TablesGot(x, cleared, d, TABLE_COUNT);
    forall t: TableName
      ensures Index(t) < TABLE_COUNT
    {
      IndexesAreTables(t);
    }
  }
}
