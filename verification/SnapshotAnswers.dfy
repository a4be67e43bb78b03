/**
What snapshot loading and admission answer: which events a shard takes, when a load
returns and what it leaves, when a snapshot is admitted, and the cause of every refusal.
*/
module SnapshotAnswers {
  import opened Common
  import opened Sorting
  import opened Events
  import opened GenerationRegistry
  import opened SnapshotLoad
  import opened SnapshotLoadFacts
  import opened SnapshotInvariant
  import opened RegistryAnswers
  import StrayShards

  const ORDERS_LINEAGE := Lineage("postgresql", "changebridge", "public", "orders_source_contract_v1_1", "1.1.0",
                                  ORDERS_DIGEST, "orders/1.1.0", ORDERS_DIGEST)

  const ITEMS_LINEAGE := Lineage("postgresql", "changebridge", "public", "order_items_source_contract", "1.0.0",
                                 ITEMS_DIGEST, "order_items/1.0.0", ITEMS_DIGEST)

  /** The lineage the table's events must carry; of another table only the database is checked. */
  predicate Lineal(table: string, l: Lineage)
  {
    if table == "orders" then l == ORDERS_LINEAGE
    else if table == "order_items" then l == ITEMS_LINEAGE
    else (l.system, l.database, l.schema) == ("postgresql", "changebridge", "public")
  }

  /** The event stands at the snapshot's boundary. */
  predicate AtBoundary(e: SnapshotEvent) { e.kind == "postgres_lsn" && e.position == "0/194FB20" }

  /** One row of the table, read at the boundary by the generation's run. */
  predicate Fitting(e: SnapshotEvent, gen: string, table: string, run: string)
  {
    && e.operation == "snapshot" && e.gen == gen && e.table == table && Lineal(table, e.lineage) && e.run == run
    && AtBoundary(e) && e.before.None? && e.after.Some? && |e.primaryKey| == 1
  }

  /** The event is a fitting one with a key of its own among the first ones. */
  ghost predicate Taken(events: seq<SnapshotEvent>, i: int, gen: string, table: string, run: string)
    requires 0 <= i < |events|
  {
    && Fitting(events[i], gen, table, run)
    && forall j :: 0 <= j < i ==> events[j].primaryKey != events[i].primaryKey
  }

  /** The events that make a shard. */
  ghost predicate MakeShard(events: seq<SnapshotEvent>, gen: string, table: string, run: string)
  {
    events != [] && forall i :: 0 <= i < |events| ==> Taken(events, i, gen, table, run)
  }

  /** Why an event is refused. */
  ghost predicate EventCause(events: seq<SnapshotEvent>, i: int, gen: string, table: string, run: string,
                             code: SnapshotLoad.Code)
    requires 0 <= i < |events|
  {
    var e := events[i];
    var named := e.operation == "snapshot" && e.gen == gen && e.table == table;
    var lineal := named && Lineal(table, e.lineage);
    var placed := lineal && e.run == run && AtBoundary(e);
    var imaged := placed && e.before.None? && e.after.Some?;
    match code
    case CBL002_NON_SNAPSHOT_RECORD => e.operation != "snapshot"
    case CBL003_GENERATION_MISMATCH => e.operation == "snapshot" && e.gen != gen
    case CBL004_TABLE_MISMATCH => e.operation == "snapshot" && e.gen == gen && e.table != table
    case CBL018_LINEAGE_MISMATCH => named && !Lineal(table, e.lineage)
    case CBL019_RUN_MISMATCH => lineal && e.run != run
    case CBL005_FRONTIER_MISMATCH => lineal && e.run == run && !AtBoundary(e)
    case CBL006_IMAGE_MISMATCH => placed && (e.before.Some? || e.after.None?)
    case CBL007_PRIMARY_KEY => imaged && |e.primaryKey| != 1
    case CBL008_DUPLICATE_KEY => Fitting(e, gen, table, run) && !Taken(events, i, gen, table, run)
    case _ => false
  }

  /** Why events make no shard: there are none, or the first that is refused has this cause. */
  ghost predicate EventsCause(events: seq<SnapshotEvent>, gen: string, table: string, run: string,
                              code: SnapshotLoad.Code)
  {
    if events == [] then code == CBL001_EMPTY_SHARD
    else exists i :: 0 <= i < |events| && EventCause(events, i, gen, table, run, code)
                     && forall j :: 0 <= j < i ==> Taken(events, j, gen, table, run)
  }

  ghost predicate KeysOf(events: seq<SnapshotEvent>, k: nat, keys: set<string>)
    requires k <= |events|
  {
    forall key :: key in keys <==> exists j :: 0 <= j < k && events[j].primaryKey == [key]
  }

  lemma EventMeans(events: seq<SnapshotEvent>, k: nat, gen: string, table: string, run: string, keys: set<string>)
    requires k < |events| && KeysOf(events, k, keys)
    ensures var fault := EventFault(events[k], gen, table, run, keys);
      && (fault == None <==> Taken(events, k, gen, table, run))
      && (fault.Some? ==> EventCause(events, k, gen, table, run, fault.value))
  {
    var e := events[k];
    if |e.primaryKey| == 1 {
      assert e.primaryKey == [e.primaryKey[0]];
    }
  }

  lemma {:induction false} ScanMeans(events: seq<SnapshotEvent>, k: nat, gen: string, table: string, run: string,
                                     keys: set<string>)
    requires k <= |events| && KeysOf(events, k, keys) && forall i :: 0 <= i < k ==> Taken(events, i, gen, table, run)
    ensures var fault := ScanFault(events[k..], gen, table, run, keys);
      && (fault == None <==> forall i :: 0 <= i < |events| ==> Taken(events, i, gen, table, run))
      && (fault.Some? ==> exists i :: 0 <= i < |events| && EventCause(events, i, gen, table, run, fault.value)
                                      && forall j :: 0 <= j < i ==> Taken(events, j, gen, table, run))
    decreases |events| - k
  {
    hide EventFault, EventCause, KeysOf, Taken;
    if k < |events| {
      assert events[k..][0] == events[k] && events[k..][1..] == events[k + 1..];
      EventMeans(events, k, gen, table, run, keys);
      if EventFault(events[k], gen, table, run, keys) == None {
        KeysGrow(events, k, gen, table, run, keys);
        ScanMeans(events, k + 1, gen, table, run, keys + {events[k].primaryKey[0]});
      }
    }
  }

  lemma KeysGrow(events: seq<SnapshotEvent>, k: nat, gen: string, table: string, run: string, keys: set<string>)
    requires k < |events| && KeysOf(events, k, keys) && Taken(events, k, gen, table, run)
    ensures |events[k].primaryKey| == 1 && KeysOf(events, k + 1, keys + {events[k].primaryKey[0]})
  {
    var key := events[k].primaryKey[0];
    assert events[k].primaryKey == [key];
    forall x ensures x in keys + {key} <==> exists j :: 0 <= j < k + 1 && events[j].primaryKey == [x] {
      if x in keys {
        var j :| 0 <= j < k && events[j].primaryKey == [x];
      }
      if j :| 0 <= j < k + 1 && events[j].primaryKey == [x] {
        assert j == k ==> [x][0] == key;
      }
    }
  }

  /** Events make a shard exactly if each fits and has its own key; else the first refused one says why. */
  lemma EventsAnswer(events: seq<SnapshotEvent>, gen: string, table: string, run: string)
    ensures var fault := EventsFault(events, gen, table, run);
      && (fault == None <==> MakeShard(events, gen, table, run))
      && (fault.Some? ==> EventsCause(events, gen, table, run, fault.value))
  {
    hide ScanFault, EventCause, Taken;
    assert events[0..] == events;
    ScanMeans(events, 0, gen, table, run, {});
  }

  /** The generation takes the shard: it is loading, and the shard is new or claimed for these events. */
  ghost predicate Claimable(r: Registry, gen: string, table: string, events: seq<SnapshotEvent>)
  {
    && gen in r.generations && r.generations[gen].state == SNAPSHOT_LOADING
    && ((gen, ShardName(table)) in r.shards ==> ClaimedAs(r, ClaimOf(gen, table, events)))
  }

  /** The shard was loaded and reconciled before. */
  ghost predicate Closed(r: Registry, gen: string, table: string)
  {
    (gen, ShardName(table)) in r.shards && r.shards[(gen, ShardName(table))].state == RECONCILED
  }

  /** The table already has a snapshot with the token. */
  ghost predicate Labelled(t: SnapshotLoad.Table, token: Token) { exists s :: s in t.log && s.token == token }

  /** The rows are the events' images, in whatever order. */
  ghost predicate HoldsImages(t: SnapshotLoad.Table, events: seq<SnapshotEvent>)
  {
    |t.rows| == |events| && Logical(t) == SortBy(Images(events), RowKey)
  }

  /** What the table must hold for the load: the images already, or, before its snapshot, nothing. */
  ghost predicate TargetFits(w: World, c: Claim, events: seq<SnapshotEvent>)
  {
    var t := TableOf(w, c.table);
    if Labelled(t, c.token) then HoldsImages(t, events) else t.rows == []
  }

  lemma LabelledMeans(t: SnapshotLoad.Table, token: Token)
    ensures Labelled(t, token) <==> SnapshotForToken(t.log, token).Some?
    ensures SnapshotForToken(t.log, token).Some? ==>
      SnapshotForToken(t.log, token).value < |t.log| && t.log[SnapshotForToken(t.log, token).value].token == token
  {
    hide SnapshotForToken;
    TokenMeans(t.log, token);
    if SnapshotForToken(t.log, token).Some? {
      assert t.log[SnapshotForToken(t.log, token).value] in t.log;
    }
  }

  /** The claim is of some events of its table. */
  predicate Honest(c: Claim)
  {
    c.shard == ShardName(c.table) && c.token == Token(c.gen, c.shard, c.input) && c.rowCount == |c.input.ids|
  }

  /** The label that goes with a token. */
  function LabelOf(token: Token): Summary
  {
    Summary(token, token.input, token.shard, |token.input.ids|, token.gen, "0/194FB20")
  }

  /** Every snapshot was labelled by an honest claim. */
  ghost predicate Stamped(w: World)
  {
    forall table, s :: table in w.tables && s in w.tables[table].log ==> s == LabelOf(s.token)
  }

  /** The commit records the table as it was when its snapshot had been verified. */
  ghost predicate Records(w: World, k: Commit)
  {
    && k.shard == k.token.shard == ShardName(k.table) && k.token.gen == k.gen && k.input == k.token.input
    && k.rowCount == |k.token.input.ids| && k.reconciliation == "VERIFIED" && k.table in w.tables
    && var t := w.tables[k.table];
       && k.snapshot < |t.log| && t.log[k.snapshot].token == k.token && k.summary == t.log[k.snapshot]
       && k.rowCount <= |t.rows| && k.logical == SortBy(t.rows[..k.rowCount], RowKey)
  }

  ghost predicate Booked(w: World)
  {
    forall id :: id in w.registry.commits ==>
      var k := w.registry.commits[id]; (k.gen, k.token) == id && Records(w, k)
  }

  /** What the target's log and the commit ledger keep in every run. */
  ghost predicate Ledger(w: World) { Stamped(w) && Booked(w) }

  lemma LedgerFrame(w: World, w': World)
    requires Ledger(w) && w'.tables == w.tables && w'.registry.commits == w.registry.commits
    ensures Ledger(w')
  {
    hide SortBy;
    forall id | id in w'.registry.commits ensures Records(w', w'.registry.commits[id]) {
      assert Records(w, w.registry.commits[id]);
    }
  }

  lemma RecordsStay(w: World, w': World, k: Commit, c: Claim, events: seq<SnapshotEvent>)
    requires Records(w, k) && w'.tables == w.tables[c.table := Appended(TableOf(w, c.table), c, events)]
    ensures Records(w', k)
  {
    hide SortBy;
    if k.table == c.table {
      var t, t' := w.tables[k.table], w'.tables[k.table];
      assert t'.rows[..k.rowCount] == t.rows[..k.rowCount];
      assert t'.log[k.snapshot] == t.log[k.snapshot];
    }
  }

  lemma AppendLedger(w: World, w': World, c: Claim, events: seq<SnapshotEvent>)
    requires Ledger(w) && Honest(c) && w'.registry.commits == w.registry.commits
    requires w'.tables == w.tables[c.table := Appended(TableOf(w, c.table), c, events)]
    ensures Ledger(w')
  {
    hide Records;
    forall id | id in w'.registry.commits ensures Records(w', w'.registry.commits[id]) {
      RecordsStay(w, w', w.registry.commits[id], c, events);
    }
    forall table, s | table in w'.tables && s in w'.tables[table].log ensures s == LabelOf(s.token) {
      if table == c.table && s != SummaryOf(c) { assert s in TableOf(w, c.table).log; }
    }
  }

  /** The verified target of a claim, and the commit that says so. */
  ghost predicate Verified(w: World, c: Claim, i: nat)
  {
    && Honest(c) && c.table in w.tables && i < |w.tables[c.table].log| && w.tables[c.table].log[i].token == c.token
    && |w.tables[c.table].rows| == c.rowCount
  }

  lemma CommitRecords(w: World, c: Claim, i: nat)
    requires Verified(w, c, i)
    ensures Records(w, CommitOf(c, TableOf(w, c.table), i))
  {
    hide SortBy;
    var rows := w.tables[c.table].rows;
    assert rows[..c.rowCount] == rows;
  }

  /** A commit that is stored is the one a repeated verification would store. */
  lemma CommitAgain(w: World, c: Claim, i: nat)
    requires Verified(w, c, i) && Ledger(w) && Logs(w) && (c.gen, c.token) in w.registry.commits
    ensures w.registry.commits[(c.gen, c.token)] == CommitOf(c, TableOf(w, c.table), i)
  {
    hide SortBy;
    var k := w.registry.commits[(c.gen, c.token)];
    assert Records(w, k);
    StrayShards.NamesTellApart(k.table, c.table);
    var t := w.tables[c.table];
    assert TokensOnce(t.log);
    assert k.snapshot == i;
    assert t.rows[..k.rowCount] == t.rows;
  }

  lemma CloseLedger(w: World, c: Claim, i: nat, lease: Lease)
    requires Verified(w, c, i) && Ledger(w)
    ensures Ledger(Close(w, c, CommitOf(c, TableOf(w, c.table), i), lease).world)
  {
    hide Ledger, Settle, CommitOf, Records;
    var commit := CommitOf(c, TableOf(w, c.table), i);
    CommitFields(c, TableOf(w, c.table), i);
    var p := Write(w, RecordCommit(w.registry, commit), lease);
    if p.Continue? {
      BookedMore(w, p.world, c, i);
      SettleFrame(p.world, c, commit, p.lease);
      LedgerFrame(p.world, Settle(p.world, c, commit, p.lease).world);
    }
  }

  lemma CommitFields(c: Claim, t: SnapshotLoad.Table, i: nat)
    requires i < |t.log|
    ensures var k := CommitOf(c, t, i); k.gen == c.gen && k.shard == c.shard && k.token == c.token
  {
  }

  lemma BookedMore(w: World, w': World, c: Claim, i: nat)
    requires Verified(w, c, i) && Ledger(w) && w'.tables == w.tables
    requires RecordCommit(w.registry, CommitOf(c, TableOf(w, c.table), i)) == Ok(w'.registry)
    ensures Ledger(w')
  {
    hide Records, CommitOf, Stamped;
    CommitFields(c, TableOf(w, c.table), i);
    CommitRecords(w, c, i);
    forall id | id in w'.registry.commits ensures Records(w', w'.registry.commits[id]) {
      RecordsFrame(w, w', w'.registry.commits[id]);
    }
    StampedFrame(w, w');
  }

  lemma LedgerIsStamped(w: World)
    requires Ledger(w)
    ensures Stamped(w)
  {
  }

  lemma StampedFrame(w: World, w': World)
    requires Stamped(w) && w'.tables == w.tables
    ensures Stamped(w')
  {
  }

  lemma RecordsFrame(w: World, w': World, k: Commit)
    requires w'.tables == w.tables
    ensures Records(w', k) <==> Records(w, k)
  {
    hide SortBy;
  }

  lemma SettleFrame(w: World, c: Claim, commit: Commit, lease: Lease)
    ensures Settle(w, c, commit, lease).world.tables == w.tables
    ensures Settle(w, c, commit, lease).world.registry.commits == w.registry.commits
  {
    hide MarkShard, Write;
    MarkFrame(w, c, COMMITTED, lease);
    var p := Write(w, MarkShard(w.registry, (c.gen, c.shard), COMMITTED), lease);
    if p.Continue? { MarkFrame(p.world, c, RECONCILED, p.lease); }
  }

  lemma MarkFrame(w: World, c: Claim, to: ShardState, lease: Lease)
    ensures var w' := StrayShards.After(Write(w, MarkShard(w.registry, (c.gen, c.shard), to), lease));
      w'.tables == w.tables && w'.registry.commits == w.registry.commits
  {
  }

  lemma VerifyLedger(w: World, c: Claim, events: seq<SnapshotEvent>, i: nat, lease: Lease)
    requires Ledger(w) && Honest(c) && c.rowCount == |events| && i < |TableOf(w, c.table).log|
    requires TableOf(w, c.table).log[i].token == c.token
    ensures Ledger(Verify(w, c, events, i, lease).world)
  {
    hide Ledger, Close, Honest, CommitOf, Logical;
    if |TableOf(w, c.table).rows| == |events| { CloseLedger(w, c, i, lease); }
  }

  lemma AppendStepLedger(w: World, c: Claim, events: seq<SnapshotEvent>, lease: Lease)
    requires Ledger(w) && Honest(c) && c.rowCount == |events|
    ensures Ledger(Append(w, c, events, lease).world)
  {
    hide Ledger, Verify, Honest, Appended, SnapshotForToken;
    var t := TableOf(w, c.table);
    LabelledMeans(t, c.token);
    if c.table in COUNTS {
      match SnapshotForToken(t.log, c.token)
      case Some(i) => VerifyLedger(w, c, events, i, lease);
      case None =>
        if !lease.Spent() {
          var w' := w.(tables := w.tables[c.table := Appended(t, c, events)]);
          AppendLedger(w, w', c, events);
          AppendedLog(t, c, events);
          VerifyLedger(w', c, events, |t.log|, lease.Next());
        }
    }
  }

  lemma AppendedLog(t: SnapshotLoad.Table, c: Claim, events: seq<SnapshotEvent>)
    ensures var t' := Appended(t, c, events); |t'.log| == |t.log| + 1 && t'.log[|t.log|].token == c.token
  {
  }

  lemma ClaimedLedger(w: World, c: Claim, events: seq<SnapshotEvent>, lease: Lease)
    requires Ledger(w) && Honest(c) && c.rowCount == |events|
    ensures Ledger(Claimed(w, c, events, lease).world)
  {
    hide Ledger, Append, Honest, ClaimCheck;
    var p := Write(w, ClaimShard(w.registry, c), lease);
    StrayShards.ClaimHolds(w, c, lease);
    if p.Continue? {
      LedgerFrame(w, p.world);
      if p.world.registry.shards[(c.gen, c.shard)].state == CLAIMED {
        var q := Write(p.world, MarkShard(p.world.registry, (c.gen, c.shard), STAGED), p.lease);
        if q.Continue? {
          LedgerFrame(p.world, q.world);
          AppendStepLedger(q.world, c, events, q.lease);
        }
      } else {
        AppendStepLedger(p.world, c, events, p.lease);
      }
    }
  }

  lemma AdmitFrame(w: World, gen: string, digests: map<string, seq<Row>>, lease: Lease)
    ensures Admit(w, gen, digests, lease).world.tables == w.tables
    ensures Admit(w, gen, digests, lease).world.registry.commits == w.registry.commits
  {
    hide CompleteShards, TargetFault, ProofOf, RecordProof, Promote;
    ProofFrame(w, gen, ProofOf(w, gen), lease);
    var p := Write(w, RecordProof(w.registry, gen, ProofOf(w, gen)), lease);
    if p.Continue? { PromoteFrame(p.world, gen, ProofOf(w, gen), p.lease); }
  }

  lemma ProofFrame(w: World, gen: string, proof: Proof, lease: Lease)
    ensures var p := Write(w, RecordProof(w.registry, gen, proof), lease);
      var w' := StrayShards.After(p); w'.tables == w.tables && w'.registry.commits == w.registry.commits
  {
    hide CompleteProof;
  }

  lemma PromoteFrame(w: World, gen: string, proof: Proof, lease: Lease)
    ensures var w' := Promote(w, gen, proof, lease).world;
      w'.tables == w.tables && w'.registry.commits == w.registry.commits
  {
  }

  /** In every run, snapshots are labelled by claims and commits record what was verified. */
  lemma {:induction false} LedgerHolds(w: World, ops: seq<Op>)
    requires Ledger(w)
    ensures Ledger(Run(w, ops))
    decreases |ops|
  {
    hide Ledger, RegisterGeneration, Move, Claimed, Admit, EventsFault;
    if ops != [] {
      var w' := Step(w, ops[0]);
      match ops[0] {
        case RegisterOp(record) =>
          KeptFrame(w, ops[0]);
          LedgerFrame(w, w');
        case MoveOp(_, _, _, _) =>
          KeptFrame(w, ops[0]);
          LedgerFrame(w, w');
        case LoadOp(gen, table, events, lease) =>
          if gen in w.registry.generations
            && EventsFault(events, gen, table, w.registry.generations[gen].record.run) == None
          {
            ClaimedLedger(w, ClaimOf(gen, table, events), events, lease);
          }
        case AdmitOp(gen, digests, lease) =>
          AdmitFrame(w, gen, digests, lease);
          LedgerFrame(w, w');
      }
      LedgerHolds(w', ops[1..]);
    }
  }

  lemma KeptFrame(w: World, op: Op)
    requires op.RegisterOp? || op.MoveOp?
    ensures Step(w, op).tables == w.tables && Step(w, op).registry.commits == w.registry.commits
  {
  }

  lemma CloseReturns(w: World, c: Claim, i: nat)
    requires Underway(w, c) && Verified(w, c, i) && Ledger(w) && Logs(w)
    ensures Close(w, c, CommitOf(c, TableOf(w, c.table), i), Unlimited).Returned?
  {
    var commit := CommitOf(c, TableOf(w, c.table), i);
    hide Ledger, Settle, CommitOf, Logs;
    CommitFields(c, TableOf(w, c.table), i);
    if (c.gen, c.token) in w.registry.commits { CommitAgain(w, c, i); }
    CommitWrites(w, c, commit, Unlimited);
    var p := Write(w, RecordCommit(w.registry, commit), Unlimited);
    SettleForm(p.world, c, commit, Unlimited);
  }

  lemma VerifyReturns(w: World, c: Claim, events: seq<SnapshotEvent>, i: nat)
    requires Underway(w, c) && Honest(c) && c.rowCount == |events| && Ledger(w) && Logs(w) && c.table in w.tables
    requires i < |TableOf(w, c.table).log| && TableOf(w, c.table).log[i].token == c.token
    ensures var r := Verify(w, c, events, i, Unlimited);
      && (r.Returned? <==> HoldsImages(TableOf(w, c.table), events))
      && (r.Returned? ==> r.world.tables == w.tables && r.commit == CommitOf(c, TableOf(w, c.table), i))
      && (!r.Returned? ==> r == Raised(w, CBL013_TARGET_MISMATCH))
  {
    hide Ledger, Underway, Logical, Logs, CommitOf, Close, SortBy, Images, Honest;
    VerifyRestarts(w, c, events, i, Unlimited);
    if HoldsImages(TableOf(w, c.table), events) { CloseReturns(w, c, i); }
  }

  lemma FreshTarget(t: SnapshotLoad.Table, c: Claim, events: seq<SnapshotEvent>)
    ensures HoldsImages(Appended(t, c, events), events) <==> t.rows == []
  {
    hide SortBy;
    if t.rows == [] { assert Appended(t, c, events).rows == Images(events); }
  }

  /** The commit is of the table's snapshot with the claim's token. */
  ghost predicate CommitAt(w: World, c: Claim, i: int, k: Commit)
  {
    var t := TableOf(w, c.table);
    0 <= i < |t.log| && t.log[i].token == c.token && k == CommitOf(c, t, i)
  }

  /** From the append on: the load returns exactly if its table is known and its target fits. */
  lemma AppendAnswers(w: World, c: Claim, events: seq<SnapshotEvent>)
    requires Underway(w, c) && Honest(c) && c.rowCount == |events| && Ledger(w) && Logs(w)
    ensures var r, t := Append(w, c, events, Unlimited), TableOf(w, c.table);
      && (r.Returned? <==> c.table in COUNTS && TargetFits(w, c, events))
      && (r.Returned? ==> r.world.tables == if Labelled(t, c.token) then w.tables
                                            else w.tables[c.table := Appended(t, c, events)])
      && (r.Returned? ==> exists i :: CommitAt(r.world, c, i, r.commit))
      && (!r.Returned? ==> r.Raised? && r.code == if c.table in COUNTS then CBL013_TARGET_MISMATCH
                                                  else CBI002_UNKNOWN_TABLE)
  {
    hide Ledger, Underway, HoldsImages, CommitOf, Verify, SnapshotForToken, Appended, Logs, Labelled;
    var t := TableOf(w, c.table);
    LabelledMeans(t, c.token);
    if c.table in COUNTS {
      match SnapshotForToken(t.log, c.token)
      case Some(i) =>
        StampedInput(w, c, i);
        VerifyReturns(w, c, events, i);
        var r := Append(w, c, events, Unlimited);
        assert r.Returned? ==> CommitAt(r.world, c, i, r.commit);
      case None =>
        var w' := w.(tables := w.tables[c.table := Appended(t, c, events)]);
        UnderwayFrame(w, w', c);
        AppendLedger(w, w', c, events);
        AppendLogs(w, w', c, events);
        AppendedLog(t, c, events);
        FreshTarget(t, c, events);
        VerifyReturns(w', c, events, |t.log|);
        var r := Append(w, c, events, Unlimited);
        assert r.Returned? ==> CommitAt(r.world, c, |t.log|, r.commit);
    }
  }

  lemma StampedInput(w: World, c: Claim, i: nat)
    requires Ledger(w) && Honest(c) && i < |TableOf(w, c.table).log| && TableOf(w, c.table).log[i].token == c.token
    ensures TableOf(w, c.table).log[i].input == c.input && c.table in w.tables
  {
    hide Booked;
    assert TableOf(w, c.table).log[i] in TableOf(w, c.table).log;
  }

  lemma AppendLogs(w: World, w': World, c: Claim, events: seq<SnapshotEvent>)
    requires Logs(w) && !Labelled(TableOf(w, c.table), c.token)
    requires w'.tables == w.tables[c.table := Appended(TableOf(w, c.table), c, events)]
    ensures Logs(w')
  {
    hide Images;
    var t := TableOf(w, c.table);
    assert TokensOnce(t.log);
    forall i | 0 <= i < |t.log| ensures t.log[i].token != c.token { assert t.log[i] in t.log; }
    assert TokensOnce(t.log + [SummaryOf(c)]);
  }

  /** What a load has to find: a shard it may claim, a known table, and a target that fits. */
  ghost predicate Loadable(w: World, gen: string, table: string, events: seq<SnapshotEvent>)
  {
    && gen in w.registry.generations && MakeShard(events, gen, table, w.registry.generations[gen].record.run)
    && Claimable(w.registry, gen, table, events) && (table == "orders" || table == "order_items")
    && (Closed(w.registry, gen, table) || TargetFits(w, ClaimOf(gen, table, events), events))
  }

  /** Why a load fails. */
  ghost predicate LoadCause(w: World, gen: string, table: string, events: seq<SnapshotEvent>, code: SnapshotLoad.Code)
  {
    if gen !in w.registry.generations then code == Control(CBG011_GENERATION_NOT_FOUND)
    else if !MakeShard(events, gen, table, w.registry.generations[gen].record.run)
    then EventsCause(events, gen, table, w.registry.generations[gen].record.run, code)
    else if w.registry.generations[gen].state != SNAPSHOT_LOADING then code == Control(CBG015_GENERATION_NOT_WRITABLE)
    else if !Claimable(w.registry, gen, table, events) then code == Control(CBG016_SHARD_REPLAY_CONFLICT)
    else if table != "orders" && table != "order_items" then code == CBI002_UNKNOWN_TABLE
    else code == CBL013_TARGET_MISMATCH
  }

  /** The target commit says what was loaded, and which snapshot has it. */
  ghost predicate CommitSays(w: World, gen: string, table: string, events: seq<SnapshotEvent>, k: Commit)
  {
    var c, t := ClaimOf(gen, table, events), TableOf(w, table);
    && k.gen == gen && k.shard == ShardName(table) && k.table == table && k.token == c.token && k.input == c.input
    && k.rowCount == |events| && k.reconciliation == "VERIFIED"
    && k.snapshot < |t.log| && t.log[k.snapshot] == k.summary
    && k.summary == Summary(c.token, c.input, ShardName(table), |events|, gen, "0/194FB20")
  }

  /** The rows are the events' after images, each as often as there. */
  ghost predicate IsLoaded(rows: seq<Row>, events: seq<SnapshotEvent>)
  {
    forall row :: multiset(rows)[row] == AfterCount(events, row)
  }

  /** How many of the events have the row as their after image. */
  function AfterCount(events: seq<SnapshotEvent>, row: Row): nat
  {
    if events == [] then 0
    else AfterCount(events[..|events| - 1], row) + if events[|events| - 1].after == Some(row) then 1 else 0
  }

  /** Every event has an after image. */
  ghost predicate Imaged(events: seq<SnapshotEvent>) { forall i :: 0 <= i < |events| ==> events[i].after.Some? }

  lemma {:induction false} ImagesCount(events: seq<SnapshotEvent>, row: Row)
    requires Imaged(events)
    ensures multiset(Images(events))[row] == AfterCount(events, row)
  {
    if events != [] {
      var n := |events| - 1;
      ImagesCount(events[..n], row);
      assert Images(events) == Images(events[..n]) + [events[n].after.value];
    }
  }

  lemma ImagesAreLoaded(t: SnapshotLoad.Table, events: seq<SnapshotEvent>)
    requires HoldsImages(t, events) && Imaged(events)
    ensures IsLoaded(t.rows, events) && IsLoaded(Logical(t), events)
    ensures forall i, j :: 0 <= i < j < |Logical(t)| ==> Le(Chars(Logical(t)[i].key), Chars(Logical(t)[j].key))
  {
    hide SortBy, Chars, Le, Images;
    SortFacts(t.rows, RowKey);
    SortFacts(Images(events), RowKey);
    forall row ensures multiset(t.rows)[row] == AfterCount(events, row) { ImagesCount(events, row); }
  }

  /** What a load that returns leaves. */
  ghost predicate LoadLeaves(w: World, gen: string, table: string, events: seq<SnapshotEvent>, r: Call)
    requires r.Returned?
  {
    var w', id := r.world, (gen, ShardName(table));
    && Closed(w'.registry, gen, table) && ClaimedAs(w'.registry, ClaimOf(gen, table, events))
    && CommitSays(w', gen, table, events, r.commit) && Recorded(w', ClaimOf(gen, table, events), r.commit)
    && (Closed(w.registry, gen, table) ==> w' == w)
    && (!Closed(w.registry, gen, table) ==>
          && table in w'.tables && IsLoaded(w'.tables[table].rows, events) && IsLoaded(r.commit.logical, events)
          && (forall i, j :: 0 <= i < j < |r.commit.logical| ==>
                Le(Chars(r.commit.logical[i].key), Chars(r.commit.logical[j].key))))
    && (forall name :: name != table ==> (name in w'.tables <==> name in w.tables))
    && (forall name :: name != table && name in w.tables ==> w'.tables[name] == w.tables[name])
    && w'.registry == w.registry.(shards := w'.registry.shards, commits := w'.registry.commits)
    && w'.registry.shards.Keys == w.registry.shards.Keys + {id}
    && (forall other :: other in w.registry.shards && other != id ==>
          w'.registry.shards[other] == w.registry.shards[other])
  }

  lemma ClaimTaken(w: World, gen: string, table: string, events: seq<SnapshotEvent>)
    requires Shards(w)
    ensures var c := ClaimOf(gen, table, events);
      var check, isNew := ClaimCheck(w.registry, c), (gen, ShardName(table)) !in w.registry.shards;
      && (check.Ok? <==> Claimable(w.registry, gen, table, events)) && (check.Ok? ==> check.value == isNew)
      && (check.Err? ==> check.code == if gen !in w.registry.generations then CBG011_GENERATION_NOT_FOUND
                                       else if w.registry.generations[gen].state != SNAPSHOT_LOADING
                                       then CBG015_GENERATION_NOT_WRITABLE else CBG016_SHARD_REPLAY_CONFLICT)
  {
    hide Landed, Ledgered, Shards;
    NewClaim(w, gen, table, events);
  }

  lemma ClaimIsHonest(gen: string, table: string, events: seq<SnapshotEvent>)
    ensures Honest(ClaimOf(gen, table, events)) && ClaimOf(gen, table, events).rowCount == |events|
  {
  }

  /** The claim as the load leaves it; the rest of the registry but the ledger is as before. */
  ghost predicate ShardLeft(w: World, c: Claim, events: seq<SnapshotEvent>, r: Call)
    requires r.Returned?
  {
    && OnlyShard(w, r.world, c) && (c.gen, c.shard) in r.world.registry.shards
    && r.world.registry.shards[(c.gen, c.shard)] == GenerationRegistry.Shard(c, RECONCILED)
    && Recorded(r.world, c, r.commit)
    && r.world.tables == (if Labelled(TableOf(w, c.table), c.token) then w.tables
                          else w.tables[c.table := Appended(TableOf(w, c.table), c, events)])
    && exists i :: CommitAt(r.world, c, i, r.commit)
  }

  /** A claimed shard that is not reconciled. */
  lemma StageAnswers(w: World, c: Claim, events: seq<SnapshotEvent>)
    requires Open(w, c) && Honest(c) && c.rowCount == |events| && Ledger(w) && Logs(w)
    ensures var r := Stage(w, c, events, Unlimited);
      && (r.Returned? <==> c.table in COUNTS && TargetFits(w, c, events))
      && (r.Returned? ==> ShardLeft(w, c, events, r))
      && (!r.Returned? ==> r.Raised? && r.code == if c.table in COUNTS then CBL013_TARGET_MISMATCH
                                                  else CBI002_UNKNOWN_TABLE)
  {
    hide Append, Ledger, Logs, Underway, CommitOf, HoldsImages, Labelled, Appended, MarkShard, Write;
    StageRestarts(w, c, events, Unlimited);
    if StateHeld(w, c) == CLAIMED {
      var w' := Marked(w, c, STAGED);
      MarkWrites(w, c, STAGED, Unlimited);
      StagedIsUnderway(w, c);
      LedgerFrame(w, w');
      LogsFrame(w, w');
      AppendAnswers(w', c, events);
    } else {
      OpenIsUnderway(w, c);
      AppendAnswers(w, c, events);
    }
  }

  /** A claim that is held. */
  lemma HeldAnswers(w: World, c: Claim, events: seq<SnapshotEvent>)
    requires Holding(w, c) && Honest(c) && c.rowCount == |events| && Ledger(w) && Logs(w)
    requires StateHeld(w, c) == RECONCILED ==> Landed(w, c) && Ledgered(w, c)
    ensures var r, done := Claimed(w, c, events, Unlimited), StateHeld(w, c) == RECONCILED;
      && (r.Returned? <==> c.table in COUNTS && (done || TargetFits(w, c, events)))
      && (r.Returned? && done ==> r.world == w && r.commit == w.registry.commits[(c.gen, c.token)])
      && (r.Returned? && !done ==> ShardLeft(w, c, events, r))
      && (!r.Returned? ==> r.Raised? && r.code == if c.table in COUNTS then CBL013_TARGET_MISMATCH
                                                  else CBI002_UNKNOWN_TABLE)
  {
    hide Claimed, Stage, Ledger, Logs, ShardLeft, TargetFits;
    ClaimFound(w, c, events, Unlimited);
    if StateHeld(w, c) != RECONCILED { StageAnswers(w, c, events); }
  }

  lemma OpenedFrame(w: World, c: Claim)
    ensures var w' := Opened(w, c);
      && w'.tables == w.tables && w'.registry == w.registry.(shards := w'.registry.shards)
      && w'.registry.shards == w.registry.shards[(c.gen, c.shard) := GenerationRegistry.Shard(c, CLAIMED)]
      && (c.gen, c.shard) in w'.registry.shards && StateHeld(w', c) == CLAIMED
  {
  }

  lemma CommitIsSaid(w: World, gen: string, table: string, events: seq<SnapshotEvent>, i: int, k: Commit)
    requires CommitAt(w, ClaimOf(gen, table, events), i, k) && Stamped(w)
    ensures CommitSays(w, gen, table, events, k) && k.logical == Logical(TableOf(w, table))
  {
    hide SortBy;
    var t := TableOf(w, table);
    assert t.log[i] in t.log;
    IdsCount(events);
  }

  lemma IdsCount(events: seq<SnapshotEvent>)
    ensures |Ids(events)| == |events|
  {
  }

  lemma StoredIsSaid(w: World, gen: string, table: string, events: seq<SnapshotEvent>)
    requires Ledger(w) && Ledgered(w, ClaimOf(gen, table, events))
    ensures CommitSays(w, gen, table, events, w.registry.commits[(gen, ClaimOf(gen, table, events).token)])
  {
    hide SortBy;
    var c := ClaimOf(gen, table, events);
    var k := w.registry.commits[(c.gen, c.token)];
    assert Records(w, k);
    assert w.tables[k.table].log[k.snapshot] in w.tables[k.table].log;
    IdsCount(events);
  }

  /** A shard that a load closes: what it leaves. */
  lemma ClosedNow(w: World, w1: World, gen: string, table: string, events: seq<SnapshotEvent>, r: Call)
    requires r.Returned? && ShardLeft(w1, ClaimOf(gen, table, events), events, r) && !Closed(w.registry, gen, table)
    requires TargetFits(w1, ClaimOf(gen, table, events), events) && w1.tables == w.tables && Imaged(events)
    requires Stamped(r.world)
    requires w1.registry == w.registry.(shards := w1.registry.shards)
    requires w1.registry.shards.Keys == w.registry.shards.Keys + {(gen, ShardName(table))}
    requires forall id :: id in w.registry.shards && id != (gen, ShardName(table)) ==>
      w1.registry.shards[id] == w.registry.shards[id]
    ensures LoadLeaves(w, gen, table, events, r)
  {
    hide CommitAt, CommitSays, Appended, SortBy, Labelled, Images, Logical, Imaged, IsLoaded, Chars, Le, Stamped;
    var c := ClaimOf(gen, table, events);
    var i :| CommitAt(r.world, c, i, r.commit);
    CommitIsSaid(r.world, gen, table, events, i, r.commit);
    FreshTarget(TableOf(w, table), c, events);
    LoadedNow(r.world, gen, table, events, i, r.commit);
  }

  lemma LoadedNow(w: World, gen: string, table: string, events: seq<SnapshotEvent>, i: int, k: Commit)
    requires CommitAt(w, ClaimOf(gen, table, events), i, k) && HoldsImages(TableOf(w, table), events)
    requires Imaged(events) && Stamped(w)
    ensures table in w.tables && IsLoaded(w.tables[table].rows, events) && IsLoaded(k.logical, events)
    ensures forall x, y :: 0 <= x < y < |k.logical| ==> Le(Chars(k.logical[x].key), Chars(k.logical[y].key))
  {
    hide SortBy, Chars, Le, Images, HoldsImages, IsLoaded, Stamped;
    ImagesAreLoaded(TableOf(w, table), events);
    CommitIsSaid(w, gen, table, events, i, k);
  }

  lemma ShardIsImaged(events: seq<SnapshotEvent>, gen: string, table: string, run: string)
    requires MakeShard(events, gen, table, run)
    ensures Imaged(events)
  {
    hide Lineal;
    forall i | 0 <= i < |events| ensures events[i].after.Some? { assert Taken(events, i, gen, table, run); }
  }

  /**
  A complete load, from any reached world.  It returns exactly if the load is possible,
  it leaves the shard closed over the events' images and their commit, and it fails for
  the reason that holds.
  */
  lemma LoadAnswers(w: World, gen: string, table: string, events: seq<SnapshotEvent>)
    requires Inv(w) && Ledger(w)
    ensures var r := LoadShard(w, gen, table, events, Unlimited);
      && (r.Returned? <==> Loadable(w, gen, table, events))
      && (r.Returned? ==> LoadLeaves(w, gen, table, events, r))
      && (!r.Returned? ==> r.Raised? && LoadCause(w, gen, table, events, r.code))
  {
    hide Claimed, EventsFault, MakeShard, EventsCause, Claimable, Ledger, TargetFits, LoadLeaves, ShardLeft, ClaimCheck;
    if gen in w.registry.generations {
      var run, c := w.registry.generations[gen].record.run, ClaimOf(gen, table, events);
      EventsAnswer(events, gen, table, run);
      if EventsFault(events, gen, table, run) == None {
        ShardIsImaged(events, gen, table, run);
        ClaimedAnswers(w, gen, table, events);
      }
    }
  }

  /** Why a load fails whose events make a shard. */
  function ClaimedRefusal(w: World, gen: string, claimable: bool, known: bool): SnapshotLoad.Code
    requires gen in w.registry.generations
  {
    if w.registry.generations[gen].state != SNAPSHOT_LOADING then Control(CBG015_GENERATION_NOT_WRITABLE)
    else if !claimable then Control(CBG016_SHARD_REPLAY_CONFLICT)
    else if !known then CBI002_UNKNOWN_TABLE
    else CBL013_TARGET_MISMATCH
  }

  lemma ClaimedAnswers(w: World, gen: string, table: string, events: seq<SnapshotEvent>)
    requires Imaged(events) && Inv(w) && Ledger(w) && gen in w.registry.generations
    ensures var c := ClaimOf(gen, table, events);
      var r := Claimed(w, c, events, Unlimited);
      var claimable, known := Claimable(w.registry, gen, table, events), table == "orders" || table == "order_items";
      && (r.Returned? <==> claimable && known && (Closed(w.registry, gen, table) || TargetFits(w, c, events)))
      && (r.Returned? ==> LoadLeaves(w, gen, table, events, r))
      && (!r.Returned? ==> r.Raised? && r.code == ClaimedRefusal(w, gen, claimable, known))
  {
    hide Claimed, Ledger, TargetFits, LoadLeaves, ShardLeft, ClaimCheck, Opened, Logs, Shards, ClaimOf;
    var c := ClaimOf(gen, table, events);
    ClaimNamed(gen, table, events);
    ClaimTaken(w, gen, table, events);
    ClaimIsHonest(gen, table, events);
    match ClaimCheck(w.registry, c) {
      case Err(_) => ClaimRefused(w, c, events, Unlimited);
      case Ok(true) => NewShardAnswers(w, gen, table, events);
      case Ok(false) => KnownShardAnswers(w, gen, table, events);
    }
  }

  /** What a load answers from the claim on, given whether it was closed before. */
  ghost predicate FromClaim(w: World, gen: string, table: string, events: seq<SnapshotEvent>, closed: bool)
  {
    var c := ClaimOf(gen, table, events);
    var r, known := Claimed(w, c, events, Unlimited), table == "orders" || table == "order_items";
    && (r.Returned? <==> known && (closed || TargetFits(w, c, events)))
    && (r.Returned? ==> LoadLeaves(w, gen, table, events, r))
    && (!r.Returned? ==> r.Raised? && r.code == if known then CBL013_TARGET_MISMATCH else CBI002_UNKNOWN_TABLE)
  }

  lemma NewShardAnswers(w: World, gen: string, table: string, events: seq<SnapshotEvent>)
    requires Imaged(events) && Inv(w) && Ledger(w) && ClaimCheck(w.registry, ClaimOf(gen, table, events)) == Ok(true)
    requires (gen, ShardName(table)) !in w.registry.shards
    ensures FromClaim(w, gen, table, events, false)
  {
    hide Generations, Holding, Ids, Landed, Ledgered, Payloads, Proofs, StateHeld, TokensOnce;
    hide Claimed, Ledger, TargetFits, LoadLeaves, ShardLeft, ClaimCheck, Opened, Logs, Shards;
    var c := ClaimOf(gen, table, events);
    ClaimIsHonest(gen, table, events);
    ClaimOpens(w, c, events, Unlimited);
    OpenedFrame(w, c);
    var w1 := Opened(w, c);
    LedgerFrame(w, w1);
    LogsFrame(w, w1);
    HeldAnswers(w1, c, events);
    TargetFrame(w, w1, c, events);
    var r := Claimed(w, c, events, Unlimited);
    if r.Returned? {
      ClaimedLedger(w, c, events, Unlimited);
      LedgerIsStamped(r.world);
      ClosedNow(w, w1, gen, table, events, r);
    }
  }

  lemma TargetFrame(w: World, w1: World, c: Claim, events: seq<SnapshotEvent>)
    requires w1.tables == w.tables
    ensures TargetFits(w1, c, events) <==> TargetFits(w, c, events)
  {
    hide HoldsImages, Labelled;
  }

  lemma KnownShardAnswers(w: World, gen: string, table: string, events: seq<SnapshotEvent>)
    requires Imaged(events) && Inv(w) && Ledger(w) && ClaimCheck(w.registry, ClaimOf(gen, table, events)) == Ok(false)
    ensures FromClaim(w, gen, table, events, Closed(w.registry, gen, table))
  {
    hide Claimed, Ledger, TargetFits, ShardLeft, ClaimCheck, Logs, Proofs, Generations, Landed, Ledgered, CommitSays;
    var c := ClaimOf(gen, table, events);
    ClaimIsHonest(gen, table, events);
    FoundIsHeld(w, c);
    assert ShardFits(w, (c.gen, c.shard));
    HeldAnswers(w, c, events);
    var r := Claimed(w, c, events, Unlimited);
    if r.Returned? {
      if Closed(w.registry, gen, table) {
        StoredIsSaid(w, gen, table, events);
        LedgeredIsRecorded(w, c);
      } else {
        assert w.registry.shards.Keys == w.registry.shards.Keys + {(gen, ShardName(table))};
        ClaimedLedger(w, c, events, Unlimited);
        LedgerIsStamped(r.world);
        ClosedNow(w, w, gen, table, events, r);
      }
    }
  }

  lemma LedgeredIsRecorded(w: World, c: Claim)
    requires Ledgered(w, c)
    ensures Recorded(w, c, w.registry.commits[(c.gen, c.token)])
  {
  }

  /**
  A complete load, in every run.  It returns exactly if its events make a shard that the
  generation may take, of a known table, and the shard is closed or the target fits: it
  holds the images under the shard's token or, without that token, is empty.  It leaves
  the shard closed, the images in the table and the commit that says so, and nothing else
  changed; and it fails for the first condition that does not hold.
  */
  lemma LoadAnswer(ops: seq<Op>, gen: string, table: string, events: seq<SnapshotEvent>)
    ensures var w := Run(START, ops);
      var r := LoadShard(w, gen, table, events, Unlimited);
      && (r.Returned? <==> Loadable(w, gen, table, events))
      && (r.Returned? ==> LoadLeaves(w, gen, table, events, r))
      && (!r.Returned? ==> r.Raised? && LoadCause(w, gen, table, events, r.code))
  {
    hide Run, Inv, Ledger, LoadShard, Loadable, LoadLeaves, LoadCause;
    InvOfRun(ops);
    LedgerOfRun(ops);
    LoadAnswers(Run(START, ops), gen, table, events);
  }

  lemma LedgerOfRun(ops: seq<Op>)
    ensures Ledger(Run(START, ops))
  {
    hide Run, Records;
    LedgerHolds(START, ops);
  }

  lemma ClaimNamed(gen: string, table: string, events: seq<SnapshotEvent>)
    ensures var c := ClaimOf(gen, table, events); c.gen == gen && c.shard == ShardName(table) && c.table == table
  {
  }

  /** The table holds this many rows, and in key order they are the expected ones. */
  ghost predicate Holds(w: World, table: string, count: nat, digests: map<string, seq<Row>>)
  {
    && table in w.tables && |w.tables[table].rows| == count
    && table in digests && SortBy(w.tables[table].rows, RowKey) == digests[table]
  }

  /** Both tables hold what they should. */
  ghost predicate TargetsHold(w: World, digests: map<string, seq<Row>>)
  {
    Holds(w, "orders", 6, digests) && Holds(w, "order_items", 66, digests)
  }

  /** The proof's result for a table: its rows and how many snapshots made them. */
  ghost predicate ResultSays(p: Proof, w: World, table: string)
  {
    && table in p.results && table in w.tables
    && p.results[table].rowCount == |w.tables[table].rows|
    && p.results[table].state == SortBy(w.tables[table].rows, RowKey)
    && p.results[table].snapshots == |w.tables[table].log|
  }

  /** The proof of the target as it is. */
  ghost predicate ProofSays(p: Proof, w: World, gen: string)
  {
    && p.gen == gen && p.frontier == "0/194FB20" && p.postCdcApplied == 0 && p.reconciled && p.foreign == 0
    && p.verdict == "PASS" && p.results.Keys == {"orders", "order_items"}
    && ResultSays(p, w, "orders") && ResultSays(p, w, "order_items")
  }

  /** What an admission has to find. */
  ghost predicate Admittable(w: World, gen: string, digests: map<string, seq<Row>>)
  {
    && TwoReconciled(w.registry, gen) && TargetsHold(w, digests)
    && (gen in w.registry.proofs ==> ProofSays(w.registry.proofs[gen], w, gen))
    && gen in w.registry.generations && w.registry.generations[gen].state == SNAPSHOT_LOADING
  }

  /** What is wrong with a table. */
  ghost predicate TableCause(w: World, table: string, count: nat, digests: map<string, seq<Row>>,
                             code: SnapshotLoad.Code)
  {
    && table in w.tables
    && match code
       case CBL016_COUNT_MISMATCH => |w.tables[table].rows| != count
       case KEY_ERROR => |w.tables[table].rows| == count && table !in digests
       case CBL017_DIGEST_MISMATCH =>
         |w.tables[table].rows| == count && table in digests
         && SortBy(w.tables[table].rows, RowKey) != digests[table]
       case _ => false
  }

  /** Why a snapshot is not admitted. */
  ghost predicate AdmitCause(w: World, gen: string, digests: map<string, seq<Row>>, code: SnapshotLoad.Code)
  {
    if !TwoReconciled(w.registry, gen) then code == CBL015_INCOMPLETE_SHARD_SET
    else if "orders" !in w.tables || "order_items" !in w.tables then code == TABLE_NOT_FOUND
    else if !Holds(w, "order_items", 66, digests) then TableCause(w, "order_items", 66, digests, code)
    else if !Holds(w, "orders", 6, digests) then TableCause(w, "orders", 6, digests, code)
    else if gen in w.registry.proofs && !ProofSays(w.registry.proofs[gen], w, gen)
    then code == Control(CBG023_ADMISSION_REPLAY_CONFLICT)
    else code == Control(CBG014_ILLEGAL_TRANSITION)
  }

  /** What an admission leaves: the stored proof, the moved generation and its transition. */
  ghost predicate AdmitLeaves(w: World, gen: string, r: Admission)
    requires r.Admitted? && gen in w.registry.generations
  {
    var g, after := w.registry.generations[gen], r.world.registry;
    && ProofSays(r.proof, w, gen) && r.world.tables == w.tables
    && after == w.registry.(proofs := w.registry.proofs[gen := r.proof],
                            generations :=
                              w.registry.generations[gen := Generation(g.record, CDC_APPLYING, g.revision + 1)],
                            transitions := w.registry.transitions + [Transition(gen, SNAPSHOT_LOADING, CDC_APPLYING,
                                                                                g.revision, g.revision + 1,
                                                                                Some(r.proof))])
  }

  lemma TargetMeans(w: World, digests: map<string, seq<Row>>)
    ensures var fault := TargetFault(w, digests);
      && (fault == None <==> TargetsHold(w, digests))
      && (fault.Some? ==>
            if "orders" !in w.tables || "order_items" !in w.tables then fault.value == TABLE_NOT_FOUND
            else if !Holds(w, "order_items", 66, digests) then TableCause(w, "order_items", 66, digests, fault.value)
            else !Holds(w, "orders", 6, digests) && TableCause(w, "orders", 6, digests, fault.value))
  {
    hide SortBy;
  }

  lemma ProofMeans(p: Proof, w: World, gen: string)
    requires "orders" in w.tables && "order_items" in w.tables
    ensures ProofSays(p, w, gen) <==> p == ProofOf(w, gen)
  {
    hide SortBy;
    if ProofSays(p, w, gen) {
      assert p.results == ProofOf(w, gen).results;
    }
  }

  lemma OwnGeneration(w: World, gen: string)
    requires Shards(w) && TwoReconciled(w.registry, gen)
    ensures gen in w.registry.generations
  {
    hide Landed, Ledgered;
    var a :| a in w.registry.shards && a.0 == gen;
    assert ShardFits(w, a);
  }

  lemma PromoteAnswers(w: World, gen: string, proof: Proof)
    requires gen in w.registry.generations && gen in w.registry.proofs && w.registry.proofs[gen] == proof
    requires proof.verdict == "PASS"
    ensures var r, g := Promote(w, gen, proof, Unlimited), w.registry.generations[gen];
      && (r.Admitted? <==> g.state == SNAPSHOT_LOADING)
      && (r.Admitted? ==> r.proof == proof && r.world == w.(registry := w.registry.(
            generations := w.registry.generations[gen := Generation(g.record, CDC_APPLYING, g.revision + 1)],
            transitions := w.registry.transitions + [Transition(gen, SNAPSHOT_LOADING, CDC_APPLYING, g.revision,
                                                                g.revision + 1, Some(proof))])))
      && (!r.Admitted? ==> r == Refused(w, Control(CBG014_ILLEGAL_TRANSITION)))
  {
  }

  /** A complete admission, from any reached world. */
  lemma AdmitAnswers(w: World, gen: string, digests: map<string, seq<Row>>)
    requires Shards(w)
    ensures var r := Admit(w, gen, digests, Unlimited);
      && (r.Admitted? <==> Admittable(w, gen, digests))
      && (r.Admitted? ==> AdmitLeaves(w, gen, r))
      && (!r.Admitted? ==> r.Refused? && AdmitCause(w, gen, digests, r.code))
  {
    hide Shards, CompleteShards, TwoReconciled, TargetFault, TargetsHold, Promote, ProofSays;
    hide ProofOf, Holds, TableCause;
    TwoMeans(w.registry, gen);
    TargetMeans(w, digests);
    HoldMeans(w, digests);
    if CompleteShards(w.registry, gen) && TargetFault(w, digests) == None {
      var proof := ProofOf(w, gen);
      OwnGeneration(w, gen);
      ProofMeans(proof, w, gen);
      if gen in w.registry.proofs { ProofMeans(w.registry.proofs[gen], w, gen); }
      ProofPasses(w, gen, digests);
      if RecordProof(w.registry, gen, proof).Ok? {
        StoredThenPromoted(w, gen, digests);
      }
    }
  }

  lemma HoldMeans(w: World, digests: map<string, seq<Row>>)
    ensures TargetsHold(w, digests) <==> Holds(w, "orders", 6, digests) && Holds(w, "order_items", 66, digests)
    ensures TargetsHold(w, digests) ==> "orders" in w.tables && "order_items" in w.tables
  {
  }

  /** Storing the proof of a target that holds fails only against another stored proof. */
  lemma ProofPasses(w: World, gen: string, digests: map<string, seq<Row>>)
    requires TwoReconciled(w.registry, gen) && TargetsHold(w, digests) && gen in w.registry.generations
    ensures var p := ProofOf(w, gen);
      var after := RecordProof(w.registry, gen, p);
      && p.verdict == "PASS"
      && (after.Ok? <==> (gen in w.registry.proofs ==> w.registry.proofs[gen] == p))
      && (after.Ok? ==> after.value == w.registry.(proofs := w.registry.proofs[gen := p]))
      && (after.Err? ==> after.code == CBG023_ADMISSION_REPLAY_CONFLICT)
  {
    hide TwoReconciled, SortBy, CompleteShards;
    ProofIff(w.registry, gen, ProofOf(w, gen));
  }

  lemma StoredThenPromoted(w: World, gen: string, digests: map<string, seq<Row>>)
    requires CompleteShards(w.registry, gen) && TargetFault(w, digests) == None && gen in w.registry.generations
    requires var p := ProofOf(w, gen);
      p.verdict == "PASS" && RecordProof(w.registry, gen, p) == Ok(w.registry.(proofs := w.registry.proofs[gen := p]))
    requires ProofSays(ProofOf(w, gen), w, gen)
    ensures var r := Admit(w, gen, digests, Unlimited);
      && (r.Admitted? <==> w.registry.generations[gen].state == SNAPSHOT_LOADING)
      && (r.Admitted? ==> AdmitLeaves(w, gen, r))
      && (!r.Admitted? ==> r.Refused? && r.code == Control(CBG014_ILLEGAL_TRANSITION))
  {
    hide CompleteShards, TargetFault, Promote, ProofSays, ProofOf, CompleteProof;
    var p := ProofOf(w, gen);
    var w1 := w.(registry := w.registry.(proofs := w.registry.proofs[gen := p]));
    PromoteAnswers(w1, gen, p);
  }

  /**
  Admission, in every run.  A complete one succeeds exactly if the generation is loading,
  has just its two shards, both reconciled, its tables hold 66 and 6 rows that are the
  expected ones, and no proof of another target is stored; then the proof of the target is
  stored and the generation applies changes.  Else the first condition that fails says why.
  */
  lemma AdmitAnswer(ops: seq<Op>, gen: string, digests: map<string, seq<Row>>)
    ensures var w := Run(START, ops);
      var r := Admit(w, gen, digests, Unlimited);
      && (r.Admitted? <==> Admittable(w, gen, digests))
      && (r.Admitted? ==> AdmitLeaves(w, gen, r))
      && (!r.Admitted? ==> r.Refused? && AdmitCause(w, gen, digests, r.code))
  {
    hide Run, Shards, Admit, Admittable, AdmitLeaves, AdmitCause;
    InvOfRun(ops);
    AdmitAnswers(Run(START, ops), gen, digests);
  }
}
