/**
Snapshot and changes joined: an admitted snapshot makes the target agree with the source
at the boundary, and the captured transactions after it bring the target to the source's
final rows.
*/
module SnapshotToTarget {
  import opened Common
  import opened Sorting
  import opened Events
  import opened CdcStream
  import opened CapturedStream
  import A = CdcApply
  import B = BatchRefinement
  import C = CdcControl
  import G = GenerationRegistry
  import I = CdcInvariant
  import L = SnapshotLoad
  import Ref = ReferenceCdc
  import S = SourceReplay
  import SF = SourceReplayFacts
  import T = IcebergCdc

  /** The rows with the key. */
  function RowsAt(rows: seq<Row>, key: string): seq<Row>
  {
    if rows == [] then []
    else
      var last := rows[|rows| - 1];
      RowsAt(rows[..|rows| - 1], key) + (if last.key == key then [last] else [])
  }

  function BagOf(rows: seq<Row>): T.Bag { map key | key in (set row | row in rows :: row.key) :: RowsAt(rows, key) }

  /** The loaded tables as the apply coordinator finds them, without the loader's own snapshots. */
  function Loaded(tables: map<string, L.Table>): T.Tables
  {
    map name | name in tables && name in S.TABLES :: T.Table(BagOf(tables[name].rows), [])
  }

  /** The report lists the table's rows, each once. */
  ghost predicate ReportOf(rows: Ref.Rows, table: string, list: seq<Row>)
  {
    && SF.RowsOf(rows, table, list)
    && forall i, j :: 0 <= i < j < |list| ==> list[i].key != list[j].key
  }

  lemma {:induction false} CountAt(rows: seq<Row>, key: string, row: Row)
    ensures multiset(RowsAt(rows, key))[row] == if row.key == key then multiset(rows)[row] else 0
  {
    if rows != [] {
      CountAt(rows[..|rows| - 1], key, row);
      assert rows == rows[..|rows| - 1] + [rows[|rows| - 1]];
    }
  }

  lemma {:induction false} OnlyRow(rows: seq<Row>, key: string, row: Row)
    requires multiset(rows)[row] == 1 && row.key == key && forall other :: other in rows && other.key == key ==>
      other == row
    ensures RowsAt(rows, key) == [row]
  {
    var at := RowsAt(rows, key);
    forall other ensures multiset(at)[other] == multiset([row])[other] {
      CountAt(rows, key, other);
      assert other in multiset(rows) <==> other in rows;
    }
    assert multiset(at) == multiset([row]);
    assert |at| == |multiset(at)| == 1;
    assert at[0] in multiset(at);
  }

  lemma {:induction false} NoRow(rows: seq<Row>, key: string)
    requires forall other :: other in rows ==> other.key != key
    ensures RowsAt(rows, key) == []
  {
    if rows != [] { NoRow(rows[..|rows| - 1], key); }
  }

  lemma {:induction false} OnceListed(list: seq<Row>, row: Row)
    requires row in list && forall i, j :: 0 <= i < j < |list| ==> list[i].key != list[j].key
    ensures multiset(list)[row] == 1
  {
    var i :| 0 <= i < |list| && list[i] == row;
    assert list == list[..i] + [row] + list[i + 1..];
    assert row !in list[..i] && row !in list[i + 1..];
  }

  /** A table whose rows are the reported ones agrees with the source. */
  lemma {:induction false} TableAgreesWithReport(rows: Ref.Rows, table: string, list: seq<Row>, held: seq<Row>)
    requires ReportOf(rows, table, list) && SF.Keyed(rows) && multiset(held) == multiset(list)
    ensures B.TableAgrees(table, BagOf(held), rows)
  {
    forall key ensures T.At(BagOf(held), key) == B.Single(Ref.Lookup(rows, (table, key))) {
      forall row ensures row in held <==> row in list { assert row in multiset(held) <==> row in multiset(list); }
      if (table, key) in rows {
        var row := rows[(table, key)];
        assert row.key == key && row in list && row in held;
        OnceListed(list, row);
        OnlyRow(held, key, row);
      } else {
        NoRow(held, key);
      }
    }
  }

  lemma AdmissionChecks(w: L.World, gen: string, digests: map<string, seq<Row>>, lease: Lease)
    requires L.Admit(w, gen, digests, lease).Admitted?
    ensures L.Admit(w, gen, digests, lease).world.tables == w.tables
    ensures forall table :: table in S.TABLES ==>
      && table in w.tables && table in digests && L.Logical(w.tables[table]) == digests[table]
  {
    hide L.ProofOf, G.RecordProof, G.Move, G.CompleteShards, SortBy;
  }

  /**
  An admitted snapshot whose state digests are the source's own agrees with the source:
  the target holds, in every table, exactly the source's rows at the boundary.
  */
  lemma AdmittedSnapshotAgrees(w: L.World, gen: string, digests: map<string, seq<Row>>, lease: Lease, rows: Ref.Rows)
    requires L.Admit(w, gen, digests, lease).Admitted? && SF.Keyed(rows)
    requires forall table :: table in S.TABLES && table in digests ==> ReportOf(rows, table, digests[table])
    ensures B.Agrees(Loaded(L.Admit(w, gen, digests, lease).world.tables), rows)
  {
    hide L.Admit, ReportOf, B.TableAgrees, BagOf, SF.Keyed;
    AdmissionChecks(w, gen, digests, lease);
    var tables := Loaded(w.tables);
    forall name ensures B.TableAgrees(name, T.TableOf(tables, name).rows, rows) {
      if name in S.TABLES {
        SortFacts(w.tables[name].rows, L.RowKey);
        TableAgreesWithReport(rows, name, digests[name], w.tables[name].rows);
      } else {
        NothingElsewhere(rows, name);
      }
    }
  }

  lemma NothingElsewhere(rows: Ref.Rows, name: string)
    requires SF.Keyed(rows) && name !in S.TABLES
    ensures B.TableAgrees(name, map[], rows)
  {
  }

  lemma LoadedIsFresh(tables: map<string, L.Table>)
    ensures I.Inv(A.World(C.EMPTY, Loaded(tables)))
  {
    hide BagOf;
    var w := A.World(C.EMPTY, Loaded(tables));
    assert forall name :: I.LogOf(w, name) == [];
    I.StartIsInv(w);
  }

  /**
  The whole path.  Once a snapshot is admitted under the source's digests, captured
  transactions committed after the boundary are all delivered to a fresh control store,
  through killed calls, if and only if none touches a row twice, provided the source
  replays them; and the target then holds exactly the source's final rows.
  */
  lemma SnapshotThenChanges(spec: S.Workload, loaded: L.World, digests: map<string, seq<Row>>, lease: Lease,
                            applying: set<string>, captures: seq<Capture>, previous: string, s: Setting)
    requires S.Replay(spec, S.PRE_BOUNDARY).Ok? && SF.PostFollowsPre(spec.material.transactions) && SF.CarriesKeys(spec)
    requires L.Admit(loaded, s.gen, digests, lease).Admitted? && s.gen in applying
    requires forall table :: table in S.TABLES && table in digests ==>
      ReportOf(S.Replay(spec, S.PRE_BOUNDARY).value.rows, table, digests[table])
    requires CapturesAll(captures, SF.Post(spec.material.transactions))
    requires Builds(captures, previous, s) && (forall c :: c in captures ==> OneTransaction(c, s))
    requires var w := A.World(C.EMPTY, Loaded(L.Admit(loaded, s.gen, digests, lease).world.tables));
             FreshCaptures(w, captures, s.gen)
    ensures var w := A.World(C.EMPTY, Loaded(L.Admit(loaded, s.gen, digests, lease).world.tables));
      var delivered, replayed := Deliver(applying, w, StreamOf(captures, previous, s)), S.Replay(spec, S.POST_BOUNDARY);
      var once := forall t :: t in SF.Post(spec.material.transactions) ==> TouchesOnce(t.body.events);
      && (replayed.Ok? ==> (delivered.Some? <==> once))
      && (once ==> (delivered.Some? <==> replayed.Ok?))
      && (delivered.Some? && replayed.Ok? ==> B.Agrees(delivered.value.tables, replayed.value.rows))
  {
    hide S.Replay, SF.Post, Deliver, I.Inv, B.Agrees, Builds, OneTransaction, FreshCaptures;
    hide TouchesOnce, L.Admit, Loaded;
    hide CapturesAll, StreamOf, ReportOf, SF.CarriesKeys, SF.Keyed, SF.PostFollowsPre;
    var w := A.World(C.EMPTY, Loaded(L.Admit(loaded, s.gen, digests, lease).world.tables));
    SF.BoundaryIsKeyed(spec);
    AdmittedSnapshotAgrees(loaded, s.gen, digests, lease, S.Replay(spec, S.PRE_BOUNDARY).value.rows);
    LoadedIsFresh(L.Admit(loaded, s.gen, digests, lease).world.tables);
    CapturedSourceReachesTarget(spec, applying, w, captures, previous, s);
  }
}
