/**
Hierarchical reconciliation (hierarchical_reconciliation.py): two sets of tables are
indexed by primary key and compared row by row, bucket by bucket.  A digest of rows is
the rows themselves; `render` is Python's `str` on a key value and `hash` the number
taken from the digest of a key.
*/
module Reconciliation {
  import opened Common
  import opened Sorting
  import opened Events

  type Columns = map<string, Value>

  type Tables = map<string, seq<Columns>>

  type Index = map<string, Columns>

  const PRIMARY_KEYS := map["orders" := "order_id", "order_items" := "item_id"]

  datatype Code = CB26R001_KEY_AUTHORITY | CB26R002_DUPLICATE_KEY | CB26R003_BUCKET_COUNT | KEY_ERROR

  datatype Result<+T> = Ok(value: T) | Err(code: Code)

  datatype Kind = UNEXPECTED_CANDIDATE_ROW | MISSING_CANDIDATE_ROW | VALUE_MISMATCH

  datatype Mismatch = Mismatch(kind: Kind, key: string)

  datatype BucketRow = BucketRow(key: string, source: Option<Columns>, candidate: Option<Columns>)

  datatype TableReport = TableReport(schema: string, sourceCount: nat, candidateCount: nat, source: seq<Columns>,
                                     candidate: seq<Columns>, buckets: seq<seq<BucketRow>>, mismatches: seq<Mismatch>)

  datatype Verdict = PASS | FAIL

  datatype Report = Report(gen: string, frontier: string, bucketCount: nat, tables: map<string, TableReport>,
                           mismatchCount: nat, verdict: Verdict)

  /** What a run is given beside the tables. */
  datatype Setting = Setting(gen: string, frontier: string, schemas: map<string, string>, bucketCount: int,
                             render: Value -> string, hash: string -> nat)

  /** `_key`. */
  function KeyOf(table: string, row: Columns, render: Value -> string): Option<string>
  {
    if table in PRIMARY_KEYS && PRIMARY_KEYS[table] in row then Some(render(row[PRIMARY_KEYS[table]])) else None
  }

  /** `_index` of the first `n` rows. */
  function IndexOf(table: string, rows: seq<Columns>, n: nat, render: Value -> string): Result<Index>
    requires n <= |rows|
  {
    if n == 0 then Ok(map[])
    else match IndexOf(table, rows, n - 1, render)
      case Err(code) => Err(code)
      case Ok(index) =>
        match KeyOf(table, rows[n - 1], render)
        case None => Err(CB26R001_KEY_AUTHORITY)
        case Some(key) => if key in index then Err(CB26R002_DUPLICATE_KEY) else Ok(index[key := rows[n - 1]])
  }

  function Get(index: Index, key: string): Option<Columns> { if key in index then Some(index[key]) else None }

  function RowsOf(tables: Tables, table: string): seq<Columns> { if table in tables then tables[table] else [] }

  /** How the two sides differ at a key, if they do. */
  function KindAt(expected: Index, actual: Index, key: string): Option<Kind>
  {
    match (Get(expected, key), Get(actual, key))
    case (None, _) => Some(UNEXPECTED_CANDIDATE_ROW)
    case (_, None) => Some(MISSING_CANDIDATE_ROW)
    case (Some(left), Some(right)) => if left != right then Some(VALUE_MISMATCH) else None
  }

  function Mismatches(keys: seq<string>, expected: Index, actual: Index): seq<Mismatch>
  {
    if keys == [] then []
    else
      var key := keys[|keys| - 1];
      Mismatches(keys[..|keys| - 1], expected, actual) +
        (match KindAt(expected, actual, key) case None => [] case Some(kind) => [Mismatch(kind, key)])
  }

  /** The rows of one bucket. */
  function BucketOf(keys: seq<string>, expected: Index, actual: Index, bucket: nat, count: nat,
                    hash: string -> nat): seq<BucketRow>
    requires count > 0
  {
    if keys == [] then []
    else
      var key := keys[|keys| - 1];
      BucketOf(keys[..|keys| - 1], expected, actual, bucket, count, hash) +
        (if hash(key) % count == bucket then [BucketRow(key, Get(expected, key), Get(actual, key))] else [])
  }

  function Pick(index: Index, keys: seq<string>): seq<Columns>
    requires forall key :: key in keys ==> key in index
  {
    seq(|keys|, i requires 0 <= i < |keys| => index[keys[i]])
  }

  ghost function InKeyOrder(index: Index): seq<Columns>
  {
    Pick(index, Listing(index.Keys))
  }

  ghost function ReportOf(schema: string, expected: Index, actual: Index, count: nat, hash: string -> nat): TableReport
    requires count > 0
  {
    var keys := Listing(expected.Keys + actual.Keys);
    TableReport(schema, |expected|, |actual|, InKeyOrder(expected), InKeyOrder(actual),
                seq(count, b requires 0 <= b < count => BucketOf(keys, expected, actual, b, count, hash)),
                Mismatches(keys, expected, actual))
  }

  ghost function TableResult(source: Tables, candidate: Tables, s: Setting, table: string): Result<TableReport>
    requires s.bucketCount >= 1
  {
    var left, right := RowsOf(source, table), RowsOf(candidate, table);
    match IndexOf(table, left, |left|, s.render)
    case Err(code) => Err(code)
    case Ok(expected) =>
      match IndexOf(table, right, |right|, s.render)
      case Err(code) => Err(code)
      case Ok(actual) =>
        if table !in s.schemas then Err(KEY_ERROR)
        else Ok(ReportOf(s.schemas[table], expected, actual, s.bucketCount, s.hash))
  }

  /** The reports of the first `n` tables and their number of mismatches. */
  ghost function TableResults(source: Tables, candidate: Tables, s: Setting, tables: seq<string>,
                              n: nat): Result<(map<string, TableReport>, nat)>
    requires s.bucketCount >= 1 && n <= |tables|
  {
    if n == 0 then Ok((map[], 0))
    else match TableResults(source, candidate, s, tables, n - 1)
      case Err(code) => Err(code)
      case Ok((reports, count)) =>
        match TableResult(source, candidate, s, tables[n - 1])
        case Err(code) => Err(code)
        case Ok(report) => Ok((reports[tables[n - 1] := report], count + |report.mismatches|))
  }

  /** `reconcile`. */
  ghost function Reconciled(source: Tables, candidate: Tables, s: Setting): Result<Report>
  {
    if s.bucketCount < 1 then Err(CB26R003_BUCKET_COUNT)
    else
      var tables := Listing(source.Keys + candidate.Keys);
      match TableResults(source, candidate, s, tables, |tables|)
      case Err(code) => Err(code)
      case Ok((reports, count)) =>
        Ok(Report(s.gen, s.frontier, s.bucketCount, reports, count, if count == 0 then PASS else FAIL))
  }

  method IndexRows(table: string, rows: seq<Columns>, render: Value -> string) returns (r: Result<Index>)
    ensures r == IndexOf(table, rows, |rows|, render)
  {
    var index: Index := map[];
    var i := 0;
    while i < |rows|
      invariant 0 <= i <= |rows|
      invariant IndexOf(table, rows, i, render) == Ok(index)
    {
      var key := KeyOf(table, rows[i], render);
      if key == None {
        IndexFails(table, rows, i + 1, render);
        return Err(CB26R001_KEY_AUTHORITY);
      }
      if key.value in index {
        IndexFails(table, rows, i + 1, render);
        return Err(CB26R002_DUPLICATE_KEY);
      }
      index := index[key.value := rows[i]];
      i := i + 1;
    }
    r := Ok(index);
  }

  lemma {:induction false} IndexFails(table: string, rows: seq<Columns>, n: nat, render: Value -> string)
    requires n <= |rows| && IndexOf(table, rows, n, render).Err?
    ensures IndexOf(table, rows, |rows|, render) == IndexOf(table, rows, n, render)
    decreases |rows| - n
  {
    if n < |rows| { IndexFails(table, rows, n + 1, render); }
  }

  /** The loop over the keys of one table: mismatches, and the rows of every bucket. */
  method Compare(expected: Index, actual: Index, keys: seq<string>, count: nat, hash: string -> nat)
    returns (mismatches: seq<Mismatch>, buckets: seq<seq<BucketRow>>)
    requires count > 0
    ensures mismatches == Mismatches(keys, expected, actual)
    ensures |buckets| == count && forall b :: 0 <= b < count ==>
      buckets[b] == BucketOf(keys, expected, actual, b, count, hash)
  {
    mismatches := [];
    buckets := seq(count, _ => []);
    var i := 0;
    while i < |keys|
      invariant 0 <= i <= |keys| && |buckets| == count
      invariant mismatches == Mismatches(keys[..i], expected, actual)
      invariant forall b :: 0 <= b < count ==> buckets[b] == BucketOf(keys[..i], expected, actual, b, count, hash)
    {
      var key := keys[i];
      assert keys[..i + 1][..i] == keys[..i] && keys[..i + 1][i] == key;
      var left, right := Get(expected, key), Get(actual, key);
      if left == None {
        mismatches := mismatches + [Mismatch(UNEXPECTED_CANDIDATE_ROW, key)];
      } else if right == None {
        mismatches := mismatches + [Mismatch(MISSING_CANDIDATE_ROW, key)];
      } else if left != right {
        mismatches := mismatches + [Mismatch(VALUE_MISMATCH, key)];
      }
      var b := hash(key) % count;
      buckets := buckets[b := buckets[b] + [BucketRow(key, left, right)]];
      i := i + 1;
    }
    assert keys[..i] == keys;
  }

  method ReportTable(schema: string, expected: Index, actual: Index, count: nat, hash: string -> nat)
    returns (r: TableReport)
    requires count > 0
    ensures r == ReportOf(schema, expected, actual, count, hash)
  {
    hide Lists, BucketOf, Mismatches;
    var keys := SortedOf(expected.Keys + actual.Keys);
    var left := SortedOf(expected.Keys);
    var right := SortedOf(actual.Keys);
    var mismatches, buckets := Compare(expected, actual, keys, count, hash);
    r := TableReport(schema, |expected|, |actual|, Pick(expected, left), Pick(actual, right), buckets, mismatches);
    assert r.buckets == ReportOf(schema, expected, actual, count, hash).buckets;
  }

  method ReconcileTable(source: Tables, candidate: Tables, s: Setting, table: string) returns (r: Result<TableReport>)
    requires s.bucketCount >= 1
    ensures r == TableResult(source, candidate, s, table)
  {
    var expected := IndexRows(table, RowsOf(source, table), s.render);
    if expected.Err? {
      return Err(expected.code);
    }
    var actual := IndexRows(table, RowsOf(candidate, table), s.render);
    if actual.Err? {
      return Err(actual.code);
    }
    if table !in s.schemas {
      return Err(KEY_ERROR);
    }
    var report := ReportTable(s.schemas[table], expected.value, actual.value, s.bucketCount, s.hash);
    r := Ok(report);
  }

  method ReconcileTables(source: Tables, candidate: Tables, s: Setting, tables: seq<string>)
    returns (r: Result<(map<string, TableReport>, nat)>)
    requires s.bucketCount >= 1
    ensures r == TableResults(source, candidate, s, tables, |tables|)
  {
    hide TableResult;
    var reports: map<string, TableReport>, count := map[], 0;
    var i := 0;
    while i < |tables|
      invariant 0 <= i <= |tables|
      invariant TableResults(source, candidate, s, tables, i) == Ok((reports, count))
    {
      var report := ReconcileTable(source, candidate, s, tables[i]);
      if report.Err? {
        ResultsFail(source, candidate, s, tables, i + 1);
        return Err(report.code);
      }
      count := count + |report.value.mismatches|;
      reports := reports[tables[i] := report.value];
      i := i + 1;
    }
    r := Ok((reports, count));
  }

  method Reconcile(source: Tables, candidate: Tables, s: Setting) returns (r: Result<Report>)
    ensures r == Reconciled(source, candidate, s)
  {
    hide TableResults, Lists;
    if s.bucketCount < 1 {
      return Err(CB26R003_BUCKET_COUNT);
    }
    var tables := SortedOf(source.Keys + candidate.Keys);
    var done := ReconcileTables(source, candidate, s, tables);
    if done.Err? {
      return Err(done.code);
    }
    var (reports, count) := done.value;
    r := Ok(Report(s.gen, s.frontier, s.bucketCount, reports, count, if count == 0 then PASS else FAIL));
  }

  lemma {:induction false} ResultsFail(source: Tables, candidate: Tables, s: Setting, tables: seq<string>, n: nat)
    requires s.bucketCount >= 1 && n <= |tables| && TableResults(source, candidate, s, tables, n).Err?
    ensures TableResults(source, candidate, s, tables, |tables|) == TableResults(source, candidate, s, tables, n)
    decreases |tables| - n
  {
    if n < |tables| { ResultsFail(source, candidate, s, tables, n + 1); }
  }
}
