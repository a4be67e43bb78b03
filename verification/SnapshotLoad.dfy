/**
Snapshot loading and admission (snapshot_loader.py, iceberg_snapshot.py).  As for the
apply coordinator, a lease says how many durable writes happen before the process is
killed.  A target table is its rows and the log of its snapshots.
*/
module SnapshotLoad {
  import opened Common
  import opened Sorting
  import opened Events
  import opened GenerationRegistry

  datatype Lineage = Lineage(system: string, database: string, schema: string, contractId: string,
                             contractVersion: string,
                             contractDigest: string, schemaVersion: string, schemaDigest: string)

  /** The key of an image is its primary-key column; `primaryKey` holds rendered values. */
  datatype SnapshotEvent = SnapshotEvent(id: string, payload: string, gen: string, run: string, operation: string,
                                         table: string, lineage: Lineage, kind: string, position: string,
                                         before: Option<Row>, after: Option<Row>, primaryKey: seq<string>)

  datatype Table = Table(rows: seq<Row>, log: seq<Summary>)

  datatype World = World(registry: Registry, tables: map<string, Table>)

  datatype Code =
    | CBL001_EMPTY_SHARD | CBL002_NON_SNAPSHOT_RECORD | CBL003_GENERATION_MISMATCH | CBL004_TABLE_MISMATCH
    | CBL005_FRONTIER_MISMATCH | CBL006_IMAGE_MISMATCH | CBL007_PRIMARY_KEY | CBL008_DUPLICATE_KEY
    | CBL009_LEDGER_WITHOUT_ICEBERG | CBL013_TARGET_MISMATCH | CBL015_INCOMPLETE_SHARD_SET | CBL016_COUNT_MISMATCH
    | CBL017_DIGEST_MISMATCH | CBL018_LINEAGE_MISMATCH | CBL019_RUN_MISMATCH
    | CBI002_UNKNOWN_TABLE | CBI003_COMMIT_TOKEN_CONFLICT | TABLE_NOT_FOUND | KEY_ERROR
    | Control(control: GenerationRegistry.Code)

  datatype Call = Returned(world: World, commit: Commit) | Raised(world: World, code: Code) | Killed(world: World)

  datatype Progress = Continue(world: World, lease: Lease) | Halt(call: Call)

  const ORDERS_DIGEST := "3797f8a7959cffb6ea5759246d5bdb961a9c34f9e7983999662b22ae88fe9ca0"

  const ITEMS_DIGEST := "a3a0f107c60ac6a8dd9f9caa1937ed7e24f90540923c4f3cf7361c5072141b84"

  /** The source coordinates, and for the two known tables their contract as well. */
  predicate LineageFits(table: string, l: Lineage)
  {
    && l.system == "postgresql" && l.database == "changebridge" && l.schema == "public"
    && (table == "orders" ==>
          && l.contractId == "orders_source_contract_v1_1" && l.contractVersion == "1.1.0"
          && l.contractDigest == ORDERS_DIGEST && l.schemaVersion == "orders/1.1.0" && l.schemaDigest == ORDERS_DIGEST)
    && (table == "order_items" ==>
          && l.contractId == "order_items_source_contract" && l.contractVersion == "1.0.0"
          && l.contractDigest == ITEMS_DIGEST && l.schemaVersion == "order_items/1.0.0"
          && l.schemaDigest == ITEMS_DIGEST)
  }

  function EventFault(e: SnapshotEvent, gen: string, table: string, run: string, keys: set<string>): Option<Code>
  {
    if e.operation != "snapshot" then Some(CBL002_NON_SNAPSHOT_RECORD)
    else if e.gen != gen then Some(CBL003_GENERATION_MISMATCH)
    else if e.table != table then Some(CBL004_TABLE_MISMATCH)
    else if !LineageFits(table, e.lineage) then Some(CBL018_LINEAGE_MISMATCH)
    else if e.run != run then Some(CBL019_RUN_MISMATCH)
    else if e.kind != "postgres_lsn" || e.position != FRONTIER then Some(CBL005_FRONTIER_MISMATCH)
    else if e.before != None || e.after == None then Some(CBL006_IMAGE_MISMATCH)
    else if |e.primaryKey| != 1 then Some(CBL007_PRIMARY_KEY)
    else if e.primaryKey[0] in keys then Some(CBL008_DUPLICATE_KEY)
    else None
  }

  function ScanFault(events: seq<SnapshotEvent>, gen: string, table: string, run: string,
                     keys: set<string>): Option<Code>
    decreases |events|
  {
    if events == [] then None
    else if EventFault(events[0], gen, table, run, keys) != None then EventFault(events[0], gen, table, run, keys)
    else ScanFault(events[1..], gen, table, run, keys + {events[0].primaryKey[0]})
  }

  /** `validate_snapshot_events`. */
  function EventsFault(events: seq<SnapshotEvent>, gen: string, table: string, run: string): Option<Code>
  {
    if events == [] then Some(CBL001_EMPTY_SHARD) else ScanFault(events, gen, table, run, {})
  }

  function Ids(events: seq<SnapshotEvent>): seq<string> { seq(|events|, i requires 0 <= i < |events| => events[i].id) }

  function Payloads(events: seq<SnapshotEvent>): seq<string>
  {
    seq(|events|, i requires 0 <= i < |events| => events[i].payload)
  }

  /** `shard_identity`, as the claim that carries it. */
  function ClaimOf(gen: string, table: string, events: seq<SnapshotEvent>): Claim
  {
    var shard := "snapshot-" + table + "-001";
    var input := InputDigest(gen, table, Ids(events), Payloads(events), FRONTIER);
    Claim(gen, shard, table, input, |events|, Token(gen, shard, input), Token(gen, shard, input))
  }

  function TableOf(w: World, table: string): Table { if table in w.tables then w.tables[table] else Table([], []) }

  /** The first snapshot with the token. */
  function SnapshotForToken(log: seq<Summary>, token: Token): Option<nat>
  {
    if log == [] then None
    else match SnapshotForToken(log[..|log| - 1], token)
      case Some(i) => Some(i)
      case None => if log[|log| - 1].token == token then Some(|log| - 1) else None
  }

  lemma {:induction false} TokenMeans(log: seq<Summary>, token: Token)
    ensures SnapshotForToken(log, token) == None <==> forall s :: s in log ==> s.token != token
    ensures forall i :: SnapshotForToken(log, token) == Some(i) ==> i < |log| && log[i].token == token
  {
    if log != [] {
      assert log == log[..|log| - 1] + [log[|log| - 1]];
      TokenMeans(log[..|log| - 1], token);
    }
  }

  function RowKey(row: Row): Key { Chars(row.key) }

  function Logical(t: Table): seq<Row> { SortBy(t.rows, RowKey) }

  function Images(events: seq<SnapshotEvent>): seq<Row>
  {
    seq(|events|, i requires 0 <= i < |events| => if events[i].after.Some? then events[i].after.value
      else Row("", map[]))
  }

  function SummaryOf(c: Claim): Summary { Summary(c.token, c.input, c.shard, c.rowCount, c.gen, FRONTIER) }

  function CommitOf(c: Claim, t: Table, i: nat): Commit
    requires i < |t.log|
  {
    Commit(c.gen, c.shard, c.token, c.table, i, c.input, c.rowCount, Logical(t), t.log[i], "VERIFIED")
  }

  /** One registry call: it may fail, find nothing to do, or write. */
  function Write(w: World, r: Result<Registry>, lease: Lease): (p: Progress)
    ensures p.Halt? ==> !p.call.Returned?
  {
    match r
    case Err(code) => Halt(Raised(w, Control(code)))
    case Ok(registry) =>
      if registry == w.registry then Continue(w, lease)
      else if lease.Spent() then Halt(Killed(w))
      else Continue(w.(registry := registry), lease.Next())
  }

  /** Mark the shard committed, then reconciled. */
  function Settle(w: World, c: Claim, commit: Commit, lease: Lease): Call
  {
    match Write(w, MarkShard(w.registry, (c.gen, c.shard), COMMITTED), lease)
    case Halt(call) => call
    case Continue(w1, lease1) =>
      match Write(w1, MarkShard(w1.registry, (c.gen, c.shard), RECONCILED), lease1)
      case Halt(call) => call
      case Continue(w2, _) => Returned(w2, commit)
  }

  /** From the target's verification on. */
  function Close(w: World, c: Claim, commit: Commit, lease: Lease): Call
  {
    match Write(w, RecordCommit(w.registry, commit), lease)
    case Halt(call) => call
    case Continue(w1, lease1) => Settle(w1, c, commit, lease1)
  }

  function Verify(w: World, c: Claim, events: seq<SnapshotEvent>, i: nat, lease: Lease): Call
    requires i < |TableOf(w, c.table).log|
  {
    var t := TableOf(w, c.table);
    if |t.rows| != |events| || Logical(t) != SortBy(Images(events), RowKey) then Raised(w, CBL013_TARGET_MISMATCH)
    else Close(w, c, CommitOf(c, t, i), lease)
  }

  function Appended(t: Table, c: Claim, events: seq<SnapshotEvent>): Table
  {
    Table(t.rows + Images(events), t.log + [SummaryOf(c)])
  }

  /** `append_snapshot`, then the rest. */
  function Append(w: World, c: Claim, events: seq<SnapshotEvent>, lease: Lease): Call
  {
    var t := TableOf(w, c.table);
    if c.table !in COUNTS then Raised(w, CBI002_UNKNOWN_TABLE)
    else
      TokenMeans(t.log, c.token);
      match SnapshotForToken(t.log, c.token)
      case Some(i) =>
        if t.log[i].input != c.input then Raised(w, CBI003_COMMIT_TOKEN_CONFLICT) else Verify(w, c, events, i, lease)
      case None =>
        if lease.Spent() then Killed(w)
        else Verify(w.(tables := w.tables[c.table := Appended(t, c, events)]), c, events, |t.log|, lease.Next())
  }

  function Stage(w: World, c: Claim, events: seq<SnapshotEvent>, lease: Lease): Call
    requires (c.gen, c.shard) in w.registry.shards
  {
    if w.registry.shards[(c.gen, c.shard)].state == CLAIMED then
      match Write(w, MarkShard(w.registry, (c.gen, c.shard), STAGED), lease)
      case Halt(call) => call
      case Continue(w1, lease1) => Append(w1, c, events, lease1)
    else Append(w, c, events, lease)
  }

  /** A reconciled shard is answered from the ledger. */
  function Replay(w: World, c: Claim): Call
  {
    if c.table !in COUNTS then Raised(w, CBI002_UNKNOWN_TABLE)
    else if SnapshotForToken(TableOf(w, c.table).log, c.token) == None then Raised(w, CBL009_LEDGER_WITHOUT_ICEBERG)
    else if (c.gen, c.token) !in w.registry.commits then Raised(w, Control(CBG021_COMMIT_NOT_FOUND))
    else Returned(w, w.registry.commits[(c.gen, c.token)])
  }

  function Claimed(w: World, c: Claim, events: seq<SnapshotEvent>, lease: Lease): Call
  {
    match Write(w, ClaimShard(w.registry, c), lease)
    case Halt(call) => call
    case Continue(w1, lease1) =>
      if w1.registry.shards[(c.gen, c.shard)].state == RECONCILED then Replay(w1, c)
      else Stage(w1, c, events, lease1)
  }

  /** `load_shard`. */
  function LoadShard(w: World, gen: string, table: string, events: seq<SnapshotEvent>, lease: Lease): Call
  {
    if gen !in w.registry.generations then Raised(w, Control(CBG011_GENERATION_NOT_FOUND))
    else match EventsFault(events, gen, table, w.registry.generations[gen].record.run)
      case Some(code) => Raised(w, code)
      case None => Claimed(w, ClaimOf(gen, table, events), events, lease)
  }

  datatype Admission = Admitted(world: World, proof: Proof) | Refused(world: World, code: Code) | Dead(world: World)

  function ResultOf(t: Table): TableResult { TableResult(|t.rows|, Logical(t), |t.log|) }

  /** The count and digest checks, table by table. */
  function TargetFault(w: World, digests: map<string, seq<Row>>): Option<Code>
  {
    var items, orders := TableOf(w, "order_items"), TableOf(w, "orders");
    if "order_items" !in w.tables || "orders" !in w.tables then Some(TABLE_NOT_FOUND)
    else if |items.rows| != COUNTS["order_items"] then Some(CBL016_COUNT_MISMATCH)
    else if "order_items" !in digests then Some(KEY_ERROR)
    else if Logical(items) != digests["order_items"] then Some(CBL017_DIGEST_MISMATCH)
    else if |orders.rows| != COUNTS["orders"] then Some(CBL016_COUNT_MISMATCH)
    else if "orders" !in digests then Some(KEY_ERROR)
    else if Logical(orders) != digests["orders"] then Some(CBL017_DIGEST_MISMATCH)
    else None
  }

  function ProofOf(w: World, gen: string): Proof
  {
    Proof(gen, FRONTIER,
          map["order_items" := ResultOf(TableOf(w, "order_items")), "orders" := ResultOf(TableOf(w, "orders"))],
          0, true, 0, "PASS")
  }

  function Refusal(call: Call): Admission
    requires !call.Returned?
  {
    match call
    case Raised(w, code) => Refused(w, code)
    case Killed(w) => Dead(w)
  }

  /** Move the generation on, at its current revision. */
  function Promote(w: World, gen: string, proof: Proof, lease: Lease): Admission
  {
    if gen !in w.registry.generations then Refused(w, Control(CBG011_GENERATION_NOT_FOUND))
    else
      var revision := w.registry.generations[gen].revision;
      match Write(w, Move(w.registry, gen, revision, CDC_APPLYING, Some(proof)), lease)
      case Halt(call) => Refusal(call)
      case Continue(w1, _) => Admitted(w1, proof)
  }

  /** `admit_snapshot`. */
  function Admit(w: World, gen: string, digests: map<string, seq<Row>>, lease: Lease): Admission
  {
    if !CompleteShards(w.registry, gen) then Refused(w, CBL015_INCOMPLETE_SHARD_SET)
    else match TargetFault(w, digests)
      case Some(code) => Refused(w, code)
      case None =>
        match Write(w, RecordProof(w.registry, gen, ProofOf(w, gen)), lease)
        case Halt(call) => Refusal(call)
        case Continue(w1, lease1) => Promote(w1, gen, ProofOf(w, gen), lease1)
  }

  datatype Outcome = Done(commit: Commit) | Failed(code: Code) | Lost

  function OutcomeOf(call: Call): Outcome
  {
    match call
    case Returned(_, commit) => Done(commit)
    case Raised(_, code) => Failed(code)
    case Killed(_) => Lost
  }

  datatype Verdict = Passed(proof: Proof) | Rejected(code: Code) | Gone

  function VerdictOf(call: Admission): Verdict
  {
    match call
    case Admitted(_, proof) => Passed(proof)
    case Refused(_, code) => Rejected(code)
    case Dead(_) => Gone
  }

  /** iceberg_snapshot.py's `IcebergSnapshotAdapter`: the tables of one namespace. */
  class Adapter {
    var tables: map<string, Table>

    constructor ()
      ensures tables == map[]
    {
      tables := map[];
    }

    method FindToken(table: string, token: Token) returns (i: Option<nat>)
      ensures i == SnapshotForToken((if table in tables then tables[table] else Table([], [])).log, token)
    {
      if table !in tables {
        return None;
      }
      var log := tables[table].log;
      var k := 0;
      while k < |log|
        invariant 0 <= k <= |log| && SnapshotForToken(log[..k], token) == None
      {
        assert log[..k + 1][..k] == log[..k];
        if log[k].token == token {
          FoundStays(log, k + 1, token);
          return Some(k);
        }
        k := k + 1;
      }
      assert log[..k] == log;
      i := None;
    }

    /** One atomic append of rows and snapshot. */
    method AppendRows(c: Claim, events: seq<SnapshotEvent>)
      modifies this
      ensures var t := if c.table in old(tables) then old(tables)[c.table] else Table([], []);
              tables == old(tables)[c.table := Appended(t, c, events)]
    {
      var t := if c.table in tables then tables[c.table] else Table([], []);
      tables := tables[c.table := Appended(t, c, events)];
    }
  }

  lemma {:induction false} FoundStays(log: seq<Summary>, n: nat, token: Token)
    requires n <= |log| && SnapshotForToken(log[..n], token).Some?
    ensures SnapshotForToken(log, token) == SnapshotForToken(log[..n], token)
    decreases |log| - n
  {
    if n == |log| {
      assert log[..n] == log;
    } else {
      assert log[..n + 1][..n] == log[..n];
      FoundStays(log, n + 1, token);
    }
  }

  method ValidateEvents(events: seq<SnapshotEvent>, gen: string, table: string, run: string)
    returns (fault: Option<Code>)
    ensures fault == EventsFault(events, gen, table, run)
  {
    if events == [] {
      return Some(CBL001_EMPTY_SHARD);
    }
    var keys: set<string> := {};
    var i := 0;
    while i < |events|
      invariant 0 <= i <= |events|
      invariant ScanFault(events, gen, table, run, {}) == ScanFault(events[i..], gen, table, run, keys)
    {
      assert events[i..][0] == events[i] && events[i..][1..] == events[i + 1..];
      fault := EventFault(events[i], gen, table, run, keys);
      if fault.Some? {
        return;
      }
      keys := keys + {events[i].primaryKey[0]};
      i := i + 1;
    }
    fault := None;
  }

  /** The process dies before a write that the call would make. */
  predicate Dies(now: Registry, r: Result<Registry>, lease: Lease) { lease.Spent() && r.Ok? && r.value != now }

  /** The lease after a call that wrote, or found nothing to do. */
  function Left(now: Registry, r: Result<Registry>, lease: Lease): Lease
    requires !Dies(now, r, lease)
  {
    if r.Err? || r.value == now then lease else lease.Next()
  }

  /** snapshot_loader.py's `SnapshotLoader`. */
  class SnapshotLoader {
    const registry: Store
    const iceberg: Adapter

    ghost function Durable(): World
      reads this, registry, iceberg
    {
      World(registry.Value(), iceberg.tables)
    }

    constructor (registry: Store, iceberg: Adapter)
      ensures this.registry == registry && this.iceberg == iceberg
    {
      this.registry, this.iceberg := registry, iceberg;
    }

    method Mark(id: ShardId, to: ShardState, lease: Lease) returns (over: Option<Outcome>, left: Lease)
      modifies registry
      ensures match Write(old(Durable()), MarkShard(old(Durable()).registry, id, to), lease)
              case Halt(call) => over == Some(OutcomeOf(call)) && Durable() == call.world
              case Continue(w, rest) => over == None && Durable() == w && left == rest
    {
      left := lease;
      var now := registry.Read();
      var next := MarkShard(now, id, to);
      if Dies(now, next, lease) {
        return Some(Lost), left;
      }
      var code := registry.MarkShardState(id, to);
      if code.Some? {
        return Some(Failed(Control(code.value))), left;
      }
      left := Left(now, next, lease);
      over := None;
    }

    method CloseShard(c: Claim, commit: Commit, lease: Lease) returns (r: Outcome)
      modifies registry
      ensures Durable() == Close(old(Durable()), c, commit, lease).world
      ensures r == OutcomeOf(Close(old(Durable()), c, commit, lease))
    {
      var now := registry.Read();
      var next := RecordCommit(now, commit);
      if Dies(now, next, lease) {
        return Lost;
      }
      var code := registry.RecordTargetCommit(commit);
      if code.Some? {
        return Failed(Control(code.value));
      }
      var left := Left(now, next, lease);
      assert Write(old(Durable()), RecordCommit(old(Durable()).registry, commit), lease) == Continue(Durable(), left);
      var over, rest := Mark((c.gen, c.shard), COMMITTED, left);
      if over.Some? {
        return over.value;
      }
      over, rest := Mark((c.gen, c.shard), RECONCILED, rest);
      if over.Some? {
        return over.value;
      }
      r := Done(commit);
    }

    method AppendShard(c: Claim, events: seq<SnapshotEvent>, lease: Lease) returns (r: Outcome)
      modifies registry, iceberg
      ensures Durable() == Append(old(Durable()), c, events, lease).world
      ensures r == OutcomeOf(Append(old(Durable()), c, events, lease))
    {
      hide Close;
      if c.table !in COUNTS {
        return Failed(CBI002_UNKNOWN_TABLE);
      }
      var existing := iceberg.FindToken(c.table, c.token);
      TokenMeans(TableOf(Durable(), c.table).log, c.token);
      var left, i := lease, 0;
      if existing.Some? {
        i := existing.value;
        if iceberg.tables[c.table].log[i].input != c.input {
          return Failed(CBI003_COMMIT_TOKEN_CONFLICT);
        }
      } else {
        if lease.Spent() {
          return Lost;
        }
        i := if c.table in iceberg.tables then |iceberg.tables[c.table].log| else 0;
        iceberg.AppendRows(c, events);
        left := lease.Next();
      }
      var t := iceberg.tables[c.table];
      if |t.rows| != |events| || Logical(t) != SortBy(Images(events), RowKey) {
        return Failed(CBL013_TARGET_MISMATCH);
      }
      r := CloseShard(c, CommitOf(c, t, i), left);
    }

    method Load(gen: string, table: string, events: seq<SnapshotEvent>, lease: Lease) returns (r: Outcome)
      modifies registry, iceberg
      ensures Durable() == LoadShard(old(Durable()), gen, table, events, lease).world
      ensures r == OutcomeOf(LoadShard(old(Durable()), gen, table, events, lease))
    {
      hide Append, EventsFault;
      if gen !in registry.generations {
        return Failed(Control(CBG011_GENERATION_NOT_FOUND));
      }
      var fault := ValidateEvents(events, gen, table, registry.generations[gen].record.run);
      if fault.Some? {
        return Failed(fault.value);
      }
      var c := ClaimOf(gen, table, events);
      var now := registry.Read();
      var next := ClaimShard(now, c);
      if Dies(now, next, lease) {
        return Lost;
      }
      var code := registry.TakeShard(c);
      if code.Some? {
        return Failed(Control(code.value));
      }
      var left := Left(now, next, lease);
      var id := (c.gen, c.shard);
      var state := registry.shards[id].state;
      if state == RECONCILED {
        if c.table !in COUNTS {
          return Failed(CBI002_UNKNOWN_TABLE);
        }
        var committed := iceberg.FindToken(c.table, c.token);
        if committed == None {
          return Failed(CBL009_LEDGER_WITHOUT_ICEBERG);
        }
        if (c.gen, c.token) !in registry.commits {
          return Failed(Control(CBG021_COMMIT_NOT_FOUND));
        }
        return Done(registry.commits[(c.gen, c.token)]);
      }
      if state == CLAIMED {
        var over, rest := Mark(id, STAGED, left);
        if over.Some? {
          return over.value;
        }
        left := rest;
      }
      r := AppendShard(c, events, left);
    }

    method PromoteGeneration(gen: string, proof: Proof, lease: Lease) returns (r: Verdict)
      modifies registry
      ensures Durable() == Promote(old(Durable()), gen, proof, lease).world
      ensures r == VerdictOf(Promote(old(Durable()), gen, proof, lease))
    {
      if gen !in registry.generations {
        return Rejected(Control(CBG011_GENERATION_NOT_FOUND));
      }
      var now := registry.Read();
      var revision := registry.generations[gen].revision;
      if Dies(now, Move(now, gen, revision, CDC_APPLYING, Some(proof)), lease) {
        return Gone;
      }
      var code := registry.TransitionTo(gen, revision, CDC_APPLYING, Some(proof));
      r := if code.Some? then Rejected(Control(code.value)) else Passed(proof);
    }

    method AdmitSnapshot(gen: string, digests: map<string, seq<Row>>, lease: Lease) returns (r: Verdict)
      modifies registry
      ensures Durable() == Admit(old(Durable()), gen, digests, lease).world
      ensures r == VerdictOf(Admit(old(Durable()), gen, digests, lease))
    {
      hide Logical, CompleteProof, CompleteShards, Promote;
      var now := registry.Read();
      if !CompleteShards(now, gen) {
        return Rejected(CBL015_INCOMPLETE_SHARD_SET);
      }
      var w := World(now, iceberg.tables);
      var fault := TargetFault(w, digests);
      if fault.Some? {
        return Rejected(fault.value);
      }
      var proof := ProofOf(w, gen);
      var next := RecordProof(now, gen, proof);
      if Dies(now, next, lease) {
        return Gone;
      }
      var code := registry.RecordAdmissionProof(gen, proof);
      if code.Some? {
        return Rejected(Control(code.value));
      }
      r := PromoteGeneration(gen, proof, Left(now, next, lease));
    }
  }
}
