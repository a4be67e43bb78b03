/**
The target adapter (iceberg_cdc.py): per-table rows and a log of snapshots, each
labelled with the commit token of the mutation that produced it.

Rows are kept per primary-key column value, so that a MERGE that inserts one key
twice is visible as two rows.
*/
module IcebergCdc {
  import opened Common
  import opened Events

  type Bag = map<string, seq<Row>>

  datatype Snapshot = Snapshot(token: Digest, gen: string, tx: string, txDigest: Digest, input: Digest,
                               frontier: string, manifest: string)

  datatype Table = Table(rows: Bag, log: seq<Snapshot>)

  type Tables = map<string, Table>

  datatype Code =
    | CB24I001_MULTI_ROW_EFFECT
    | CB24I002_DUPLICATE_INSERT
    | CB24I003_TARGET_ROW_MISSING
    | CB24I005_TARGET_BEFORE_IMAGE_MISMATCH
    | CB24I006_COMMIT_METADATA_FAILURE
    | CB24I007_EMPTY_TABLE_PLAN
    | CB24I008_COMMIT_TOKEN_CONFLICT
    | CB24I009_COMMIT_NOT_VISIBLE

  datatype Commit = Committed(table: Table, snapshot: nat, recovered: bool) | Rejected(code: Code)

  /** A table that does not exist yet has no rows and no snapshots. */
  function TableOf(tables: Tables, name: string): Table
  {
    if name in tables then tables[name] else Table(map[], [])
  }

  /** Rows whose primary-key column is `key`. */
  function At(rows: Bag, key: string): seq<Row>
  {
    if key in rows then rows[key] else []
  }

  /** The first snapshot that carries the token. */
  function SnapshotForToken(log: seq<Snapshot>, token: Digest): (r: Option<nat>)
    ensures r.Some? <==> exists i :: 0 <= i < |log| && log[i].token == token
    ensures r.Some? ==> r.value < |log| && log[r.value].token == token
    ensures r.Some? ==> forall i :: 0 <= i < r.value ==> log[i].token != token
  {
    if log == [] then None
    else if log[0].token == token then Some(0)
    else
      assert forall i :: 1 <= i < |log| ==> log[i] == log[1..][i - 1];
      match SnapshotForToken(log[1..], token)
      case None => None
      case Some(i) => Some(i + 1)
  }

  /** `_check_preconditions` on one event. */
  function CheckEvent(rows: Bag, e: Event): Option<Code>
  {
    var current := At(rows, e.key);
    if |current| > 1 then Some(CB24I001_MULTI_ROW_EFFECT)
    else if e.change.Insert? then
      if current != [] then Some(CB24I002_DUPLICATE_INSERT) else None
    else if current == [] then Some(CB24I003_TARGET_ROW_MISSING)
    else if current[0] != e.change.before then Some(CB24I005_TARGET_BEFORE_IMAGE_MISMATCH)
    else None
  }

  /** Every event is checked against the table as it was before the transaction. */
  function CheckPreconditions(rows: Bag, events: seq<Event>): (r: Option<Code>)
    ensures r == None <==> forall e :: e in events ==> CheckEvent(rows, e) == None
  {
    if events == [] then None
    else match CheckEvent(rows, events[0])
      case Some(code) => Some(code)
      case None => CheckPreconditions(rows, events[1..])
  }

  /** The source rows that the MERGE condition pairs with primary key `key`. */
  function Matching(events: seq<Event>, key: string): (r: seq<Event>)
    ensures forall e :: e in r <==> e in events && e.Image().key == key
    ensures r == [] <==> forall e :: e in events ==> e.Image().key != key
  {
    if events == [] then []
    else (if events[0].Image().key == key then [events[0]] else []) + Matching(events[1..], key)
  }

  /** A target row paired with two source rows makes the MERGE fail as a whole. */
  predicate MergeAmbiguous(rows: Bag, events: seq<Event>)
  {
    exists key :: key in rows && rows[key] != [] && |Matching(events, key)| > 1
  }

  function Inserted(events: seq<Event>): seq<Row>
  {
    if events == [] then []
    else (if events[0].change.Insert? then [events[0].Image()] else []) + Inserted(events[1..])
  }

  /** The three WHEN clauses of the MERGE, for one primary key. */
  function MergeKey(current: seq<Row>, events: seq<Event>): seq<Row>
  {
    if current == [] then Inserted(events)
    else if events == [] then current
    else match events[0].change
      case Delete(_) => []
      case Update(_, _) => seq(|current|, i => events[0].Image())
      case Insert(_) => current
  }

  function ImageKeys(events: seq<Event>): set<string>
  {
    set e | e in events :: e.Image().key
  }

  function Merge(rows: Bag, events: seq<Event>): Bag
  {
    map key | key in rows.Keys + ImageKeys(events) :: MergeKey(At(rows, key), Matching(events, key))
  }

  function SnapshotOf(plan: Plan, name: string): Snapshot
  {
    Snapshot(plan.Token(name), plan.gen, plan.tx, plan.digest, plan.Input(name), plan.commitLsn, plan.manifest)
  }

  /** Is the table's batch accepted? */
  predicate BatchAccepted(rows: Bag, events: seq<Event>)
  {
    events != [] && CheckPreconditions(rows, events) == None && !MergeAmbiguous(rows, events)
  }

  /** `apply_table` as a function of the table it finds. */
  function ApplyTable(t: Table, plan: Plan, name: string): Commit
  {
    var events := EventsFor(plan.events, name);
    if events == [] then Rejected(CB24I007_EMPTY_TABLE_PLAN)
    else match SnapshotForToken(t.log, plan.Token(name))
      case Some(i) =>
        var s := t.log[i];
        if s.txDigest != plan.digest || s.input != plan.Input(name) || s.gen != plan.gen
        then Rejected(CB24I008_COMMIT_TOKEN_CONFLICT)
        else Committed(t, i, true)
      case None =>
        match CheckPreconditions(t.rows, events)
        case Some(code) => Rejected(code)
        case None =>
          if MergeAmbiguous(t.rows, events) then Rejected(CB24I006_COMMIT_METADATA_FAILURE)
          else Committed(Table(Merge(t.rows, events), t.log + [SnapshotOf(plan, name)]), |t.log|, false)
  }

  /** iceberg_cdc.py's `IcebergCDCAdapter`, bound to one namespace. */
  class Adapter {
    var tables: Tables

    constructor (initial: Tables)
      ensures tables == initial
    {
      tables := initial;
    }

    method CheckTable(rows: Bag, events: seq<Event>) returns (r: Option<Code>)
      ensures r == CheckPreconditions(rows, events)
    {
      hide CheckEvent;
      var i := 0;
      while i < |events|
        invariant 0 <= i <= |events|
        invariant CheckPreconditions(rows, events) == CheckPreconditions(rows, events[i..])
      {
        assert events[i..][0] == events[i] && events[i..][1..] == events[i + 1..];
        var code := CheckEvent(rows, events[i]);
        if code.Some? {
          return code;
        }
        i := i + 1;
      }
      r := None;
    }

    /** Commit one table of a transaction, or recognise its earlier commit by token. */
    method Apply(plan: Plan, name: string) returns (r: Commit)
      modifies this
      ensures r == ApplyTable(TableOf(old(tables), name), plan, name)
      ensures r.Committed? ==> tables == old(tables)[name := r.table]
      ensures r.Rejected? ==> tables == old(tables)
    {
      var t := TableOf(tables, name);
      var events := EventsFor(plan.events, name);
      if events == [] {
        return Rejected(CB24I007_EMPTY_TABLE_PLAN);
      }
      var existing := SnapshotForToken(t.log, plan.Token(name));
      if existing.Some? {
        r := ApplyTable(t, plan, name);
      } else {
        var code := CheckTable(t.rows, events);
        if code.Some? {
          return Rejected(code.value);
        }
        if MergeAmbiguous(t.rows, events) {
          return Rejected(CB24I006_COMMIT_METADATA_FAILURE);
        }
        r := Committed(Table(Merge(t.rows, events), t.log + [SnapshotOf(plan, name)]), |t.log|, false);
      }
      if r.Committed? {
        tables := tables[name := r.table];
      }
    }
  }
}
