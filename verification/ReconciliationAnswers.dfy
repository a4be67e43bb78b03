/**
What reconciliation answers, read off the rows of the two sides: which tables it takes,
what the report says of them, and the cause of every refusal.
*/
module ReconciliationAnswers {
  import opened Common
  import opened Sorting
  import opened Events
  import opened Reconciliation
  import opened ReconciliationFacts

  /** Orders are keyed by their order id, order items by their item id; no other table has a key. */
  ghost predicate HasKey(table: string, row: Columns, render: Value -> string, key: string)
  {
    || (table == "orders" && "order_id" in row && key == render(row["order_id"]))
    || (table == "order_items" && "item_id" in row && key == render(row["item_id"]))
  }

  ghost predicate Keyless(table: string, row: Columns, render: Value -> string)
  {
    forall key :: !HasKey(table, row, render, key)
  }

  /** Two rows under one key. */
  ghost predicate Clash(table: string, rows: seq<Columns>, render: Value -> string, i: int, j: int)
  {
    0 <= i < j < |rows| && exists key :: HasKey(table, rows[i], render, key) && HasKey(table, rows[j], render, key)
  }

  /** Every row has a key, and no two share one. */
  ghost predicate WellKeyed(table: string, rows: seq<Columns>, render: Value -> string)
  {
    && (forall i :: 0 <= i < |rows| ==> !Keyless(table, rows[i], render))
    && (forall i, j :: !Clash(table, rows, render, i, j))
  }

  lemma KeyMeans(table: string, row: Columns, render: Value -> string)
    ensures forall key :: HasKey(table, row, render, key) <==> KeyOf(table, row, render) == Some(key)
    ensures Keyless(table, row, render) <==> KeyOf(table, row, render) == None
  {
    if KeyOf(table, row, render).Some? {
      assert HasKey(table, row, render, KeyOf(table, row, render).value);
    }
  }

  /** Why rows are not indexed: the first row that cannot be added says. */
  ghost predicate IndexCause(table: string, rows: seq<Columns>, render: Value -> string, code: Code)
  {
    exists k :: 0 <= k < |rows| && WellKeyed(table, rows[..k], render)
                && match code
                   case CB26R001_KEY_AUTHORITY => Keyless(table, rows[k], render)
                   case CB26R002_DUPLICATE_KEY => exists i :: Clash(table, rows, render, i, k)
                   case _ => false
  }

  lemma IndexableMeans(table: string, rows: seq<Columns>, n: nat, render: Value -> string)
    requires n <= |rows|
    ensures Indexable(table, rows, n, render) <==> WellKeyed(table, rows[..n], render)
  {
    hide KeyOf, HasKey;
    forall row: Columns
      ensures forall key :: HasKey(table, row, render, key) <==> KeyOf(table, row, render) == Some(key)
      ensures Keyless(table, row, render) <==> KeyOf(table, row, render) == None
    {
      KeyMeans(table, row, render);
    }
    assert forall i :: 0 <= i < n ==> rows[..n][i] == rows[i];
    hide Keyless;
    if WellKeyed(table, rows[..n], render) {
      forall i, j | 0 <= i < j < n ensures KeyOf(table, rows[i], render) != KeyOf(table, rows[j], render) {
        assert !Clash(table, rows[..n], render, i, j) && !Keyless(table, rows[..n][i], render);
        assert KeyOf(table, rows[i], render).Some?;
        assert HasKey(table, rows[..n][i], render, KeyOf(table, rows[i], render).value);
      }
      forall i | 0 <= i < n ensures KeyOf(table, rows[i], render).Some? {
        assert !Keyless(table, rows[..n][i], render);
      }
    }
  }

  /** Rows are indexed exactly if they are well keyed; else the first that cannot be added says why. */
  lemma {:induction false} IndexAnswer(table: string, rows: seq<Columns>, n: nat, render: Value -> string)
    requires n <= |rows|
    ensures var r := IndexOf(table, rows, n, render);
      && (r.Ok? <==> WellKeyed(table, rows[..n], render))
      && (r.Err? ==> IndexCause(table, rows, render, r.code))
  {
    hide KeyOf, HasKey, Keyless, Clash, WellKeyed;
    IndexMeans(table, rows, n, render);
    IndexableMeans(table, rows, n, render);
    if n > 0 {
      IndexAnswer(table, rows, n - 1, render);
      if IndexOf(table, rows, n - 1, render).Ok? && IndexOf(table, rows, n, render).Err? {
        RowRefused(table, rows, n - 1, render);
      }
    }
  }

  lemma RowRefused(table: string, rows: seq<Columns>, k: nat, render: Value -> string)
    requires k < |rows| && WellKeyed(table, rows[..k], render)
    requires IndexOf(table, rows, k, render).Ok? && IndexOf(table, rows, k + 1, render).Err?
    ensures IndexCause(table, rows, render, IndexOf(table, rows, k + 1, render).code)
  {
    hide KeyOf, HasKey, Keyless, WellKeyed;
    KeyMeans(table, rows[k], render);
    IndexMeans(table, rows, k, render);
    if KeyOf(table, rows[k], render).Some? {
      var key := KeyOf(table, rows[k], render).value;
      var i :| 0 <= i < k && KeyOf(table, rows[i], render) == Some(key);
      KeyMeans(table, rows[i], render);
      assert Clash(table, rows, render, i, k);
    }
  }

  /** The table's rows; a table that is not given has none. */
  function Given(tables: Tables, table: string): seq<Columns> { if table in tables then tables[table] else [] }

  lemma GivenAre(tables: Tables, table: string)
    ensures RowsOf(tables, table) == Given(tables, table)
  {
  }

  /** The two sides have the same rows. */
  ghost predicate SameRows(source: Tables, candidate: Tables, table: string)
  {
    forall row :: row in Given(source, table) <==> row in Given(candidate, table)
  }

  lemma IndexesAgree(table: string, left: seq<Columns>, right: seq<Columns>, render: Value -> string)
    requires IndexOf(table, left, |left|, render).Ok? && IndexOf(table, right, |right|, render).Ok?
    ensures IndexOf(table, left, |left|, render) == IndexOf(table, right, |right|, render) <==>
            forall row :: row in left <==> row in right
  {
    hide KeyOf;
    var a, b := IndexOf(table, left, |left|, render).value, IndexOf(table, right, |right|, render).value;
    Contents(table, left, render);
    Contents(table, right, render);
    if a == b {
      forall row ensures row in left <==> row in right {
        assert row in left <==> exists key :: key in a && a[key] == row;
      }
    }
    if forall row :: row in left <==> row in right {
      IndexIsKeyed(table, left, |left|, render);
      IndexIsKeyed(table, right, |right|, render);
      forall key | key in a ensures key in b && b[key] == a[key] { assert a[key] in left && a[key] in right; }
      forall key | key in b ensures key in a { assert b[key] in right && b[key] in left; }
      assert a.Keys == b.Keys;
    }
  }

  /** The index holds just the rows, each under its key. */
  lemma Contents(table: string, rows: seq<Columns>, render: Value -> string)
    requires IndexOf(table, rows, |rows|, render).Ok?
    ensures var index := IndexOf(table, rows, |rows|, render).value;
      && (forall row :: row in rows <==> exists key :: key in index && index[key] == row)
      && (forall row :: row in rows ==> KeyOf(table, row, render).Some?
                                        && KeyOf(table, row, render).value in index
                                        && index[KeyOf(table, row, render).value] == row)
  {
    hide KeyOf;
    IndexMeans(table, rows, |rows|, render);
    var index := IndexOf(table, rows, |rows|, render).value;
    IndexIsKeyed(table, rows, |rows|, render);
    forall row | row in rows
      ensures KeyOf(table, row, render).Some? && KeyOf(table, row, render).value in index
      ensures index[KeyOf(table, row, render).value] == row
    {
      var i :| 0 <= i < |rows| && rows[i] == row;
    }
    forall key | key in index ensures index[key] in rows {
      var i :| 0 <= i < |rows| && KeyOf(table, rows[i], render) == Some(key);
    }
  }

  lemma {:induction false} IndexSize(table: string, rows: seq<Columns>, n: nat, render: Value -> string)
    requires n <= |rows| && IndexOf(table, rows, n, render).Ok?
    ensures |IndexOf(table, rows, n, render).value| == n
  {
    hide KeyOf;
    if n > 0 { IndexSize(table, rows, n - 1, render); }
  }

  /** The rows in the order of their keys. */
  ghost predicate InOrderOfKeys(table: string, rows: seq<Columns>, list: seq<Columns>, render: Value -> string)
  {
    && |list| == |rows| && (forall row :: row in list <==> row in rows)
    && (forall i, j :: 0 <= i < j < |list| ==> KeysRise(table, list[i], list[j], render))
  }

  /** The one row's key is below the other's. */
  ghost predicate KeysRise(table: string, a: Columns, b: Columns, render: Value -> string)
  {
    exists x, y :: HasKey(table, a, render, x) && HasKey(table, b, render, y) && x != y && Le(Chars(x), Chars(y))
  }

  lemma ListedInOrder(table: string, rows: seq<Columns>, render: Value -> string)
    requires IndexOf(table, rows, |rows|, render).Ok?
    ensures InOrderOfKeys(table, rows, InKeyOrder(IndexOf(table, rows, |rows|, render).value), render)
  {
    hide KeyOf, KeysRise, Le, Chars, IndexOf, InKeyOrder;
    var index := IndexOf(table, rows, |rows|, render).value;
    IndexSize(table, rows, |rows|, render);
    IndexIsKeyed(table, rows, |rows|, render);
    var keys := Picked(index);
    forall row ensures row in InKeyOrder(index) <==> row in rows {
      Contents(table, rows, render);
      ListHas(index, InKeyOrder(index), keys, row);
    }
    OrderOfKeys(table, index, InKeyOrder(index), keys, render);
  }

  lemma ListHas(index: Index, list: seq<Columns>, keys: seq<string>, row: Columns)
    requires |keys| == |list| && forall key :: key in keys <==> key in index
    requires forall i :: 0 <= i < |keys| ==> keys[i] in index && list[i] == index[keys[i]]
    ensures row in list <==> exists key :: key in index && index[key] == row
  {
    if key :| key in index && index[key] == row {
      assert key in keys;
    }
  }

  lemma OrderOfKeys(table: string, index: Index, list: seq<Columns>, keys: seq<string>, render: Value -> string)
    requires KeyedBy(table, index, render) && |keys| == |list|
    requires forall i :: 0 <= i < |keys| ==> keys[i] in index && list[i] == index[keys[i]]
    requires forall i, j :: 0 <= i < j < |keys| ==> keys[i] != keys[j] && Le(Chars(keys[i]), Chars(keys[j]))
    ensures forall i, j :: 0 <= i < j < |list| ==> KeysRise(table, list[i], list[j], render)
  {
    hide KeyOf, HasKey, Le, Chars;
    forall i, j | 0 <= i < j < |list| ensures KeysRise(table, list[i], list[j], render) {
      KeyMeans(table, list[i], render);
      KeyMeans(table, list[j], render);
      assert HasKey(table, list[i], render, keys[i]) && HasKey(table, list[j], render, keys[j]);
    }
  }

  /** An index listed in the order of its keys. */
  lemma Picked(index: Index) returns (keys: seq<string>)
    ensures |keys| == |index| == |InKeyOrder(index)|
    ensures forall key :: key in keys <==> key in index
    ensures forall i :: 0 <= i < |keys| ==> keys[i] in index && InKeyOrder(index)[i] == index[keys[i]]
    ensures forall i, j :: 0 <= i < j < |keys| ==> keys[i] != keys[j] && Le(Chars(keys[i]), Chars(keys[j]))
  {
    hide Le, Chars;
    keys := Listing(index.Keys);
    DistinctSize(keys);
    assert Elements(keys) == index.Keys && |index| == |index.Keys|;
    assert forall i :: 0 <= i < |keys| ==> keys[i] in keys;
  }

  /** The table is well keyed on both sides and has a schema. */
  ghost predicate Comparable(source: Tables, candidate: Tables, s: Setting, table: string)
  {
    && WellKeyed(table, Given(source, table), s.render) && WellKeyed(table, Given(candidate, table), s.render)
    && table in s.schemas
  }

  /** Why a table is not compared. */
  ghost predicate TableCause(source: Tables, candidate: Tables, s: Setting, table: string, code: Code)
  {
    if !WellKeyed(table, Given(source, table), s.render)
    then IndexCause(table, Given(source, table), s.render, code)
    else if !WellKeyed(table, Given(candidate, table), s.render)
    then IndexCause(table, Given(candidate, table), s.render, code)
    else table !in s.schemas && code == KEY_ERROR
  }

  /** What the report says of a table. */
  ghost predicate Reports(source: Tables, candidate: Tables, s: Setting, table: string, r: TableReport)
  {
    && table in s.schemas && r.schema == s.schemas[table]
    && r.sourceCount == |Given(source, table)| && r.candidateCount == |Given(candidate, table)|
    && InOrderOfKeys(table, Given(source, table), r.source, s.render)
    && InOrderOfKeys(table, Given(candidate, table), r.candidate, s.render)
    && |r.buckets| == s.bucketCount && (r.mismatches == [] <==> SameRows(source, candidate, table))
  }

  lemma TableAnswer(source: Tables, candidate: Tables, s: Setting, table: string)
    requires s.bucketCount >= 1
    ensures var r := TableResult(source, candidate, s, table);
      && (r.Ok? <==> Comparable(source, candidate, s, table))
      && (r.Ok? ==> Reports(source, candidate, s, table, r.value))
      && (r.Err? ==> TableCause(source, candidate, s, table, r.code))
  {
    hide IndexOf, WellKeyed, IndexCause, ReportOf, Reports;
    var left, right := Given(source, table), Given(candidate, table);
    GivenAre(source, table);
    GivenAre(candidate, table);
    assert left[..|left|] == left && right[..|right|] == right;
    IndexAnswer(table, left, |left|, s.render);
    IndexAnswer(table, right, |right|, s.render);
    if TableResult(source, candidate, s, table).Ok? { TableSays(source, candidate, s, table); }
  }

  lemma TableSays(source: Tables, candidate: Tables, s: Setting, table: string)
    requires s.bucketCount >= 1 && TableResult(source, candidate, s, table).Ok?
    ensures Reports(source, candidate, s, table, TableResult(source, candidate, s, table).value)
  {
    hide Get, Listing, Lists, MismatchKeys, RightKind, RowsOf, Given;
    hide IndexOf, InKeyOrder, BucketOf, Mismatches, InOrderOfKeys;
    var left, right := Given(source, table), Given(candidate, table);
    GivenAre(source, table);
    GivenAre(candidate, table);
    IndexSize(table, left, |left|, s.render);
    IndexSize(table, right, |right|, s.render);
    ListedInOrder(table, left, s.render);
    ListedInOrder(table, right, s.render);
    IndexesAgree(table, left, right, s.render);
    MismatchesAreExact(s.schemas[table], IndexOf(table, left, |left|, s.render).value,
                       IndexOf(table, right, |right|, s.render).value, s.bucketCount, s.hash);
  }

  /** The number of mismatches of the first `n` tables. */
  function Total(reports: map<string, TableReport>, tables: seq<string>, n: nat): nat
    requires n <= |tables|
  {
    if n == 0 then 0
    else Total(reports, tables, n - 1) + if tables[n - 1] in reports then |reports[tables[n - 1]].mismatches| else 0
  }

  /** The first table that is not compared, in the order of names, says why. */
  ghost predicate FirstFailing(source: Tables, candidate: Tables, s: Setting, tables: seq<string>, code: Code)
  {
    exists k :: 0 <= k < |tables| && !Comparable(source, candidate, s, tables[k])
                && TableCause(source, candidate, s, tables[k], code)
                && forall j :: 0 <= j < k ==> Comparable(source, candidate, s, tables[j])
  }

  lemma {:induction false} TablesAnswer(source: Tables, candidate: Tables, s: Setting, tables: seq<string>, n: nat)
    requires s.bucketCount >= 1 && n <= |tables|
    ensures var r := TableResults(source, candidate, s, tables, n);
      && (r.Ok? <==> forall j :: 0 <= j < n ==> Comparable(source, candidate, s, tables[j]))
      && (r.Err? ==> FirstFailing(source, candidate, s, tables, r.code))
  {
    hide TableResult, Comparable, TableCause, Reports;
    if n > 0 {
      TablesAnswer(source, candidate, s, tables, n - 1);
      TableAnswer(source, candidate, s, tables[n - 1]);
    }
  }

  lemma {:induction false} CountIsTotal(source: Tables, candidate: Tables, s: Setting, tables: seq<string>, n: nat)
    requires s.bucketCount >= 1 && n <= |tables| && Distinct(tables)
    requires TableResults(source, candidate, s, tables, n).Ok?
    ensures var (reports, count) := TableResults(source, candidate, s, tables, n).value;
      && count == Total(reports, tables, n) && forall table :: table in reports ==> table in tables[..n]
  {
    hide TableResult;
    if n > 0 {
      CountIsTotal(source, candidate, s, tables, n - 1);
      var (reports, _) := TableResults(source, candidate, s, tables, n - 1).value;
      var (more, _) := TableResults(source, candidate, s, tables, n).value;
      assert tables[..n] == tables[..n - 1] + [tables[n - 1]];
      assert forall j :: 0 <= j < n - 1 ==> tables[j] != tables[n - 1];
      TotalFrame(reports, more, tables, n - 1);
    }
  }

  lemma {:induction false} TotalFrame(a: map<string, TableReport>, b: map<string, TableReport>, tables: seq<string>,
                                      n: nat)
    requires n <= |tables|
    requires forall j :: 0 <= j < n ==> (tables[j] in a <==> tables[j] in b)
                                        && (tables[j] in a ==> a[tables[j]] == b[tables[j]])
    ensures Total(a, tables, n) == Total(b, tables, n)
  {
    if n > 0 { TotalFrame(a, b, tables, n - 1); }
  }

  /** What a report says. */
  ghost predicate Says(source: Tables, candidate: Tables, s: Setting, r: Report)
  {
    && r.gen == s.gen && r.frontier == s.frontier && r.bucketCount == s.bucketCount
    && (forall table :: table in r.tables <==> table in source || table in candidate)
    && (forall table :: table in r.tables ==> Reports(source, candidate, s, table, r.tables[table]))
    && r.mismatchCount == Total(r.tables, Listing(r.tables.Keys), |Listing(r.tables.Keys)|)
    && (r.verdict.PASS? <==>
            forall table :: table in source || table in candidate ==> SameRows(source, candidate, table))
  }

  /**
  A report is made exactly for at least one bucket and tables that all have a schema and
  well-keyed rows on both sides.  It gives each table's rows in the order of their keys,
  and passes exactly when both sides have the same rows in every table.  Else the first
  table in the order of names that fails says why.
  */
  lemma ReportAnswer(source: Tables, candidate: Tables, s: Setting)
    ensures var r, tables := Reconciled(source, candidate, s), Listing(source.Keys + candidate.Keys);
      && (r.Ok? <==> s.bucketCount >= 1 && forall table :: table in source || table in candidate ==>
                                              Comparable(source, candidate, s, table))
      && (r.Ok? ==> Says(source, candidate, s, r.value))
      && (r.Err? ==> if s.bucketCount < 1 then r.code == CB26R003_BUCKET_COUNT
                     else FirstFailing(source, candidate, s, tables, r.code))
  {
    hide TableResults, TableResult, Comparable, TableCause, Reports, SameRows, Equal, Lists, Total;
    if s.bucketCount >= 1 {
      var tables := Listing(source.Keys + candidate.Keys);
      assert forall table :: table in tables <==> table in source || table in candidate;
      TablesAnswer(source, candidate, s, tables, |tables|);
      if TableResults(source, candidate, s, tables, |tables|).Ok? {
        ReportSays(source, candidate, s);
      }
    }
  }

  lemma ReportOpens(source: Tables, candidate: Tables, s: Setting)
    requires Reconciled(source, candidate, s).Ok?
    ensures var r, tables := Reconciled(source, candidate, s).value, Listing(source.Keys + candidate.Keys);
      && s.bucketCount >= 1 && r.gen == s.gen && r.frontier == s.frontier && r.bucketCount == s.bucketCount
      && r.mismatchCount == Total(r.tables, tables, |tables|) && r.tables.Keys == source.Keys + candidate.Keys
      && forall table :: table in r.tables ==> TableResult(source, candidate, s, table) == Ok(r.tables[table])
  {
    hide TableResults, TableResult, Total;
    var r, tables := Reconciled(source, candidate, s).value, Listing(source.Keys + candidate.Keys);
    ReportsAreResults(source, candidate, s, tables, |tables|);
    CountIsTotal(source, candidate, s, tables, |tables|);
    assert tables[..|tables|] == tables;
    forall table | table in r.tables ensures TableResult(source, candidate, s, table) == Ok(r.tables[table]) {
      var i :| 0 <= i < |tables| && tables[i] == table;
    }
  }

  lemma ReportSays(source: Tables, candidate: Tables, s: Setting)
    requires Reconciled(source, candidate, s).Ok?
    ensures Says(source, candidate, s, Reconciled(source, candidate, s).value)
  {
    hide Reconciled, TableResult, Comparable, TableCause, Reports, Total, SameRows;
    var r := Reconciled(source, candidate, s).value;
    ReportOpens(source, candidate, s);
    forall table | table in r.tables ensures Reports(source, candidate, s, table, r.tables[table]) {
      TableAnswer(source, candidate, s, table);
    }
    VerdictIsSameness(source, candidate, s, r);
  }

  lemma VerdictIsSameness(source: Tables, candidate: Tables, s: Setting, r: Report)
    requires Reconciled(source, candidate, s) == Ok(r)
    requires forall table :: table in r.tables ==> Reports(source, candidate, s, table, r.tables[table])
    ensures r.verdict.PASS? <==>
      forall table :: table in source || table in candidate ==> SameRows(source, candidate, table)
  {
    hide Reconciled, Equal, SameRows, InOrderOfKeys;
    ReportDigestsDecide(source, candidate, s);
    forall table ensures table in r.tables <==> table in source || table in candidate {
      assert table in r.tables.Keys <==> table in source.Keys + candidate.Keys;
    }
  }
}
