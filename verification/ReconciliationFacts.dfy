/**
Reconciliation is exact: what a report says of two sets of tables, and that it does not
depend on the order of their rows.
*/
module ReconciliationFacts {
  import opened Common
  import opened Sorting
  import opened Events
  import opened Reconciliation

  ghost function Differing(expected: Index, actual: Index): set<string>
  {
    set key | key in expected.Keys + actual.Keys && Get(expected, key) != Get(actual, key)
  }

  function MismatchKeys(ms: seq<Mismatch>): seq<string> { seq(|ms|, i requires 0 <= i < |ms| => ms[i].key) }

  function BucketKeys(rows: seq<BucketRow>): seq<string> { seq(|rows|, i requires 0 <= i < |rows| => rows[i].key) }

  /** Keeping some of a sorted list without repetitions. */
  function Kept(keys: seq<string>, keep: string -> bool): seq<string>
  {
    if keys == [] then []
    else Kept(keys[..|keys| - 1], keep) + (if keep(keys[|keys| - 1]) then [keys[|keys| - 1]] else [])
  }

  lemma {:induction false} KeptMeans(keys: seq<string>, keep: string -> bool)
    ensures forall key :: key in Kept(keys, keep) <==> key in keys && keep(key)
  {
    if keys != [] {
      assert keys == keys[..|keys| - 1] + [keys[|keys| - 1]];
      KeptMeans(keys[..|keys| - 1], keep);
    }
  }

  lemma {:induction false} KeptSorted(keys: seq<string>, keep: string -> bool)
    requires Sorted(keys, Chars) && Distinct(keys)
    ensures Sorted(Kept(keys, keep), Chars) && Distinct(Kept(keys, keep))
  {
    hide Le, Chars;
    if keys != [] {
      var front, last := keys[..|keys| - 1], keys[|keys| - 1];
      KeptSorted(front, keep);
      KeptMeans(front, keep);
      var k := Kept(front, keep);
      forall i | 0 <= i < |k| ensures k[i] != last && Le(Chars(k[i]), Chars(last)) {
        assert k[i] in k && k[i] in front;
        var j :| 0 <= j < |front| && front[j] == k[i];
        assert keys[j] == k[i] && keys[|front|] == last;
      }
    }
  }

  lemma KeptLists(keys: seq<string>, keep: string -> bool, elements: set<string>)
    requires Lists(keys, elements)
    ensures Lists(Kept(keys, keep), set key | key in elements && keep(key))
  {
    hide Le, Chars, Kept;
    KeptSorted(keys, keep);
    KeptMeans(keys, keep);
    forall key ensures key in Elements(Kept(keys, keep)) <==> key in elements && keep(key) {
      assert key in keys <==> key in Elements(keys);
    }
  }

  lemma {:induction false} MismatchesAre(keys: seq<string>, expected: Index, actual: Index)
    ensures MismatchKeys(Mismatches(keys, expected, actual)) == Kept(keys, key => KindAt(expected, actual, key) != None)
    ensures forall m :: m in Mismatches(keys, expected, actual) ==> KindAt(expected, actual, m.key) == Some(m.kind)
    decreases |keys|
  {
    if keys != [] { MismatchesAre(keys[..|keys| - 1], expected, actual); }
  }

  lemma {:induction false} BucketIs(keys: seq<string>, expected: Index, actual: Index, bucket: nat, count: nat,
                                    hash: string -> nat)
    requires count > 0
    ensures BucketKeys(BucketOf(keys, expected, actual, bucket, count, hash))
        == Kept(keys, key => hash(key) % count == bucket)
    ensures forall row :: row in BucketOf(keys, expected, actual, bucket, count, hash) ==>
              row.source == Get(expected, row.key) && row.candidate == Get(actual, row.key)
    decreases |keys|
  {
    if keys != [] { BucketIs(keys[..|keys| - 1], expected, actual, bucket, count, hash); }
  }

  /** The kind says on which side the key is missing, or that the rows differ. */
  ghost predicate RightKind(expected: Index, actual: Index, m: Mismatch)
  {
    match m.kind
    case UNEXPECTED_CANDIDATE_ROW => m.key !in expected && m.key in actual
    case MISSING_CANDIDATE_ROW => m.key in expected && m.key !in actual
    case VALUE_MISMATCH => m.key in expected && m.key in actual && expected[m.key] != actual[m.key]
  }

  lemma MismatchesList(expected: Index, actual: Index)
    ensures Lists(MismatchKeys(Mismatches(Listing(expected.Keys + actual.Keys), expected, actual)),
                  Differing(expected, actual))
  {
    hide Lists, Mismatches, Listing, Kept;
    var keys := Listing(expected.Keys + actual.Keys);
    var keep := (key: string) => KindAt(expected, actual, key) != None;
    MismatchesAre(keys, expected, actual);
    KeptLists(keys, keep, expected.Keys + actual.Keys);
    assert MismatchKeys(Mismatches(keys, expected, actual)) == Kept(keys, keep);
    assert (set key | key in expected.Keys + actual.Keys && keep(key)) == Differing(expected, actual);
  }

  lemma KindsAreRight(expected: Index, actual: Index)
    ensures forall m :: m in Mismatches(Listing(expected.Keys + actual.Keys), expected, actual) ==>
      RightKind(expected, actual, m)
  {
    var ms := Mismatches(Listing(expected.Keys + actual.Keys), expected, actual);
    MismatchesList(expected, actual);
    MismatchesAre(Listing(expected.Keys + actual.Keys), expected, actual);
    ListsElements(MismatchKeys(ms), Differing(expected, actual));
    forall m | m in ms ensures RightKind(expected, actual, m) {
      var i :| 0 <= i < |ms| && ms[i] == m;
      assert MismatchKeys(ms)[i] == m.key && m.key in MismatchKeys(ms);
    }
  }

  lemma NoneIffEqual(expected: Index, actual: Index)
    ensures Mismatches(Listing(expected.Keys + actual.Keys), expected, actual) == [] <==> expected == actual
  {
    hide Lists, Mismatches, Listing;
    var ms := Mismatches(Listing(expected.Keys + actual.Keys), expected, actual);
    MismatchesList(expected, actual);
    ListsElements(MismatchKeys(ms), Differing(expected, actual));
    if ms == [] {
      forall key ensures key !in Differing(expected, actual) { assert key !in MismatchKeys(ms); }
      SameIndex(expected, actual);
    } else {
      assert MismatchKeys(ms)[0] in MismatchKeys(ms);
    }
  }

  /**
  The mismatches list exactly the keys at which the two sides differ, in order and each
  once, with the right kind; there are none exactly when the sides are equal.
  */
  lemma MismatchesAreExact(schema: string, expected: Index, actual: Index, count: nat, hash: string -> nat)
    requires count > 0
    ensures var ms := ReportOf(schema, expected, actual, count, hash).mismatches;
            && Lists(MismatchKeys(ms), Differing(expected, actual))
            && (forall m :: m in ms ==> RightKind(expected, actual, m))
            && (ms == [] <==> expected == actual)
  {
    hide Lists, Mismatches, BucketOf, Differing, RightKind, InKeyOrder;
    MismatchesList(expected, actual);
    KindsAreRight(expected, actual);
    NoneIffEqual(expected, actual);
  }

  lemma ListsElements(s: seq<string>, elements: set<string>)
    requires Lists(s, elements)
    ensures forall x :: x in s <==> x in elements
  {
    assert forall x :: x in s <==> x in Elements(s);
  }

  lemma SameIndex(a: Index, b: Index)
    requires Differing(a, b) == {}
    ensures a == b
  {
    forall key | key in a.Keys + b.Keys ensures Get(a, key) == Get(b, key) {
      assert key !in Differing(a, b);
    }
    forall key | key in a || key in b ensures key in a && key in b && a[key] == b[key] {
      assert Get(a, key) == Get(b, key);
    }
  }

  /** The buckets partition the keys of both sides: each key sits in the bucket of its hash, and only there. */
  lemma BucketsPartition(schema: string, expected: Index, actual: Index, count: nat, hash: string -> nat, bucket: nat)
    requires bucket < count
    ensures var rows := ReportOf(schema, expected, actual, count, hash).buckets[bucket];
            && Lists(BucketKeys(rows), set key | key in expected.Keys + actual.Keys && hash(key) % count == bucket)
            && (forall row :: row in rows ==>
                    row.source == Get(expected, row.key) && row.candidate == Get(actual, row.key))
  {
    hide Lists;
    var keys := Listing(expected.Keys + actual.Keys);
    var keep := (key: string) => hash(key) % count == bucket;
    BucketIs(keys, expected, actual, bucket, count, hash);
    KeptLists(keys, keep, expected.Keys + actual.Keys);
    assert BucketKeys(BucketOf(keys, expected, actual, bucket, count, hash)) == Kept(keys, keep);
    assert (set key | key in expected.Keys + actual.Keys && keep(key)) ==
           (set key | key in expected.Keys + actual.Keys && hash(key) % count == bucket);
  }

  /** Every row sits under its own key. */
  ghost predicate KeyedBy(table: string, index: Index, render: Value -> string)
  {
    forall key :: key in index ==> KeyOf(table, index[key], render) == Some(key)
  }

  lemma {:induction false} IndexIsKeyed(table: string, rows: seq<Columns>, n: nat, render: Value -> string)
    requires n <= |rows| && IndexOf(table, rows, n, render).Ok?
    ensures KeyedBy(table, IndexOf(table, rows, n, render).value, render)
  {
    if n > 0 { IndexIsKeyed(table, rows, n - 1, render); }
  }

  /** The two digests of a table agree exactly when the table has no mismatch. */
  lemma DigestsDecide(table: string, schema: string, expected: Index, actual: Index, count: nat, hash: string -> nat,
                      render: Value -> string)
    requires count > 0 && KeyedBy(table, expected, render) && KeyedBy(table, actual, render)
    ensures var r := ReportOf(schema, expected, actual, count, hash); r.source == r.candidate <==> r.mismatches == []
  {
    hide Lists, Mismatches, BucketOf, KeyOf;
    MismatchesAreExact(schema, expected, actual, count, hash);
    if InKeyOrder(expected) == InKeyOrder(actual) {
      var a, b := Listing(expected.Keys), Listing(actual.Keys);
      assert |a| == |InKeyOrder(expected)| == |InKeyOrder(actual)| == |b|;
      forall i | 0 <= i < |a| ensures a[i] == b[i] && expected[a[i]] == actual[b[i]] {
        assert a[i] in a && b[i] in b;
        assert InKeyOrder(expected)[i] == expected[a[i]] && InKeyOrder(actual)[i] == actual[b[i]];
      }
      assert a == b;
      forall key ensures key in expected <==> key in actual {
        assert (key in a <==> key in expected) && (key in b <==> key in actual);
      }
      forall key | key in a ensures expected[key] == actual[key] {
        var i :| 0 <= i < |a| && a[i] == key;
      }
      assert expected == actual;
    }
  }

  /** The two sides of a table index to the same map. */
  ghost predicate Equal(source: Tables, candidate: Tables, s: Setting, table: string)
  {
    var left, right := RowsOf(source, table), RowsOf(candidate, table);
    IndexOf(table, left, |left|, s.render) == IndexOf(table, right, |right|, s.render)
  }

  lemma {:induction false} CountIsZero(source: Tables, candidate: Tables, s: Setting, tables: seq<string>, n: nat)
    requires s.bucketCount >= 1 && n <= |tables| && TableResults(source, candidate, s, tables, n).Ok?
    ensures TableResults(source, candidate, s, tables, n).value.1 == 0 <==>
              forall i :: 0 <= i < n ==> Equal(source, candidate, s, tables[i])
    ensures forall i :: 0 <= i < n ==> TableResult(source, candidate, s, tables[i]).Ok?
  {
    hide IndexOf, ReportOf;
    if n > 0 {
      CountIsZero(source, candidate, s, tables, n - 1);
      var table := tables[n - 1];
      var left, right := RowsOf(source, table), RowsOf(candidate, table);
      MismatchesAreExact(s.schemas[table], IndexOf(table, left, |left|, s.render).value,
                         IndexOf(table, right, |right|, s.render).value, s.bucketCount, s.hash);
    }
  }

  /** A report passes exactly when, table by table, the keyed rows are equal. */
  lemma VerdictIsEquality(source: Tables, candidate: Tables, s: Setting)
    requires Reconciled(source, candidate, s).Ok?
    ensures Reconciled(source, candidate, s).value.verdict.PASS? <==>
              forall table :: table in source.Keys + candidate.Keys ==> Equal(source, candidate, s, table)
  {
    hide Equal, TableResults, TableResult, Lists;
    var tables := Listing(source.Keys + candidate.Keys);
    CountIsZero(source, candidate, s, tables, |tables|);
    if forall i :: 0 <= i < |tables| ==> Equal(source, candidate, s, tables[i]) {
      forall table | table in source.Keys + candidate.Keys ensures Equal(source, candidate, s, table) {
        assert table in tables;
      }
    } else {
      var i :| 0 <= i < |tables| && !Equal(source, candidate, s, tables[i]);
      assert tables[i] in tables && tables[i] in source.Keys + candidate.Keys;
    }
  }

  /** One report per table, each the table's own result. */
  lemma {:induction false} ReportsAreResults(source: Tables, candidate: Tables, s: Setting, tables: seq<string>, n: nat)
    requires s.bucketCount >= 1 && n <= |tables| && Distinct(tables)
    requires TableResults(source, candidate, s, tables, n).Ok?
    ensures var reports := TableResults(source, candidate, s, tables, n).value.0;
            && (forall table :: table in reports <==> table in tables[..n])
            && forall i :: 0 <= i < n ==>
                tables[i] in reports && Ok(reports[tables[i]]) == TableResult(source, candidate, s, tables[i])
  {
    hide TableResult;
    if n > 0 {
      ReportsAreResults(source, candidate, s, tables, n - 1);
      assert tables[..n] == tables[..n - 1] + [tables[n - 1]];
      assert forall i :: 0 <= i < n - 1 ==> tables[i] != tables[n - 1];
    }
  }

  /** A table's digests agree exactly when its keyed rows do, and exactly when it has no mismatch. */
  lemma ResultDecides(source: Tables, candidate: Tables, s: Setting, table: string)
    requires s.bucketCount >= 1 && TableResult(source, candidate, s, table).Ok?
    ensures var r := TableResult(source, candidate, s, table).value;
            && (r.source == r.candidate <==> r.mismatches == [])
            && (r.mismatches == [] <==> Equal(source, candidate, s, table))
  {
    hide IndexOf, ReportOf, KeyedBy;
    var left, right := RowsOf(source, table), RowsOf(candidate, table);
    var expected, actual :=
      IndexOf(table, left, |left|, s.render).value, IndexOf(table, right, |right|, s.render).value;
    IndexIsKeyed(table, left, |left|, s.render);
    IndexIsKeyed(table, right, |right|, s.render);
    DigestsDecide(table, s.schemas[table], expected, actual, s.bucketCount, s.hash, s.render);
    MismatchesAreExact(s.schemas[table], expected, actual, s.bucketCount, s.hash);
  }

  /**
  In every report: there is one for each table of either side, its two digests agree
  exactly when it lists no mismatch, exactly when the keyed rows are equal; and the
  verdict is PASS exactly when every table's digests agree.
  */
  lemma ReportDigestsDecide(source: Tables, candidate: Tables, s: Setting)
    requires Reconciled(source, candidate, s).Ok?
    ensures var report := Reconciled(source, candidate, s).value;
            && report.tables.Keys == source.Keys + candidate.Keys
            && (forall table :: table in report.tables ==>
                  && (report.tables[table].source == report.tables[table].candidate <==>
                        report.tables[table].mismatches == [])
                  && (report.tables[table].mismatches == [] <==> Equal(source, candidate, s, table)))
            && (report.verdict.PASS? <==>
                  forall table :: table in report.tables ==>
                      report.tables[table].source == report.tables[table].candidate)
  {
    hide TableResults, TableResult, Equal;
    var tables, report := Listing(source.Keys + candidate.Keys), Reconciled(source, candidate, s).value;
    ReportsAreResults(source, candidate, s, tables, |tables|);
    assert tables[..|tables|] == tables;
    forall table | table in report.tables
      ensures report.tables[table].source == report.tables[table].candidate <==> report.tables[table].mismatches == []
      ensures report.tables[table].mismatches == [] <==> Equal(source, candidate, s, table)
    {
      var i :| 0 <= i < |tables| && tables[i] == table;
      ResultDecides(source, candidate, s, table);
    }
    VerdictIsEquality(source, candidate, s);
  }

  /** Rows have keys, and no two the same. */
  ghost predicate Indexable(table: string, rows: seq<Columns>, n: nat, render: Value -> string)
    requires n <= |rows|
  {
    && (forall i :: 0 <= i < n ==> KeyOf(table, rows[i], render).Some?)
    && (forall i, j :: 0 <= i < j < n ==> KeyOf(table, rows[i], render) != KeyOf(table, rows[j], render))
  }

  lemma {:induction false} IndexMeans(table: string, rows: seq<Columns>, n: nat, render: Value -> string)
    requires n <= |rows|
    ensures IndexOf(table, rows, n, render).Ok? <==> Indexable(table, rows, n, render)
    ensures IndexOf(table, rows, n, render).Ok? ==>
              var index := IndexOf(table, rows, n, render).value;
              && (forall i :: 0 <= i < n ==>
                    KeyOf(table, rows[i], render).value in index
                    && index[KeyOf(table, rows[i], render).value] == rows[i])
              && (forall key :: key in index ==> exists i :: 0 <= i < n && KeyOf(table, rows[i], render) == Some(key))
  {
    hide KeyOf;
    if n > 0 {
      IndexMeans(table, rows, n - 1, render);
      if IndexOf(table, rows, n - 1, render).Ok? && KeyOf(table, rows[n - 1], render).Some? {
        var index, key := IndexOf(table, rows, n - 1, render).value, KeyOf(table, rows[n - 1], render).value;
        assert key in index <==> exists i :: 0 <= i < n - 1 && KeyOf(table, rows[i], render) == Some(key);
      }
    }
  }

  lemma IndexablePermutes(table: string, rows: seq<Columns>, perm: seq<Columns>, render: Value -> string)
    requires multiset(rows) == multiset(perm) && Indexable(table, rows, |rows|, render)
    ensures Indexable(table, perm, |perm|, render)
  {
    hide KeyOf;
    DistinctPermutation(rows, perm);
    forall i | 0 <= i < |perm| ensures perm[i] in rows {
      assert perm[i] in multiset(perm);
    }
    forall i, j | 0 <= i < j < |perm| ensures KeyOf(table, perm[i], render) != KeyOf(table, perm[j], render) {
      assert perm[i] != perm[j];
      var a :| 0 <= a < |rows| && rows[a] == perm[i];
      var b :| 0 <= b < |rows| && rows[b] == perm[j];
      assert a < b || b < a;
    }
  }

  /** Indexing forgets the order of the rows. */
  lemma IndexForgetsOrder(table: string, rows: seq<Columns>, perm: seq<Columns>, render: Value -> string)
    requires multiset(rows) == multiset(perm) && IndexOf(table, rows, |rows|, render).Ok?
    ensures IndexOf(table, perm, |perm|, render) == IndexOf(table, rows, |rows|, render)
  {
    hide KeyOf;
    IndexMeans(table, rows, |rows|, render);
    IndexablePermutes(table, rows, perm, render);
    IndexMeans(table, perm, |perm|, render);
    var a, b := IndexOf(table, rows, |rows|, render).value, IndexOf(table, perm, |perm|, render).value;
    IndexContained(table, rows, perm, render, a, b);
    IndexContained(table, perm, rows, render, b, a);
    assert a == b;
  }

  lemma IndexContained(table: string, rows: seq<Columns>, perm: seq<Columns>, render: Value -> string, a: Index,
                       b: Index)
    requires multiset(rows) == multiset(perm)
    requires IndexOf(table, rows, |rows|, render) == Ok(a) && IndexOf(table, perm, |perm|, render) == Ok(b)
    ensures forall key :: key in a ==> key in b && b[key] == a[key]
  {
    hide KeyOf;
    IndexMeans(table, rows, |rows|, render);
    IndexMeans(table, perm, |perm|, render);
    forall key | key in a ensures key in b && b[key] == a[key] {
      var i :| 0 <= i < |rows| && KeyOf(table, rows[i], render) == Some(key);
      assert rows[i] in multiset(rows);
      var j :| 0 <= j < |perm| && perm[j] == rows[i];
      assert KeyOf(table, perm[j], render).value in b;
    }
  }

  /** The same rows in each table, in any order. */
  ghost predicate Shuffled(a: Tables, b: Tables)
  {
    a.Keys == b.Keys && forall table :: table in a ==> multiset(a[table]) == multiset(b[table])
  }

  lemma ResultForgetsOrder(source: Tables, candidate: Tables, source': Tables, candidate': Tables, s: Setting,
                           table: string)
    requires Shuffled(source, source') && Shuffled(candidate, candidate')
    requires s.bucketCount >= 1 && TableResult(source, candidate, s, table).Ok?
    ensures TableResult(source', candidate', s, table) == TableResult(source, candidate, s, table)
  {
    hide IndexOf, ReportOf;
    IndexForgetsOrder(table, RowsOf(source, table), RowsOf(source', table), s.render);
    IndexForgetsOrder(table, RowsOf(candidate, table), RowsOf(candidate', table), s.render);
  }

  lemma {:induction false} ResultsForgetOrder(source: Tables, candidate: Tables, source': Tables, candidate': Tables,
                                              s: Setting, tables: seq<string>, n: nat)
    requires Shuffled(source, source') && Shuffled(candidate, candidate')
    requires s.bucketCount >= 1 && n <= |tables| && TableResults(source, candidate, s, tables, n).Ok?
    ensures TableResults(source', candidate', s, tables, n) == TableResults(source, candidate, s, tables, n)
  {
    hide TableResult, Shuffled;
    if n > 0 {
      ResultsForgetOrder(source, candidate, source', candidate', s, tables, n - 1);
      ResultForgetsOrder(source, candidate, source', candidate', s, tables[n - 1]);
    }
  }

  /** The report is the same however the rows of each table are ordered. */
  lemma ReportForgetsOrder(source: Tables, candidate: Tables, source': Tables, candidate': Tables, s: Setting)
    requires Shuffled(source, source') && Shuffled(candidate, candidate') && Reconciled(source, candidate, s).Ok?
    ensures Reconciled(source', candidate', s) == Reconciled(source, candidate, s)
  {
    hide TableResults, Lists;
    var tables := Listing(source.Keys + candidate.Keys);
    ResultsForgetOrder(source, candidate, source', candidate', s, tables, |tables|);
  }
}
