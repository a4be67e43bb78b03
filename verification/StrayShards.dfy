/**
The window between the admission proof and the transition that it allows.  A load of a
table that the snapshot does not have is admitted there exactly under the condition
below, and from then on no admission of the generation succeeds.
*/
module StrayShards {
  import opened Common
  import opened Sorting
  import opened Events
  import opened GenerationRegistry
  import opened SnapshotLoad
  import opened SnapshotLoadFacts
  import opened SnapshotInvariant

  /** The proof is stored, the transition has not happened. */
  ghost predicate Proven(w: World, gen: string)
  {
    && gen in w.registry.generations && w.registry.generations[gen].state == SNAPSHOT_LOADING
    && gen in w.registry.proofs
  }

  lemma NamesTellApart(a: string, b: string)
    requires ShardName(a) == ShardName(b)
    ensures a == b
  {
    assert |ShardName(a)| == |ShardName(b)|;
    assert ShardName(a)[9..9 + |a|] == a && ShardName(b)[9..9 + |b|] == b;
  }

  /** Later steps of a load leave the set of shards as the claim made it. */
  lemma ClaimedShards(w: World, c: Claim, events: seq<SnapshotEvent>, lease: Lease)
    requires c.gen in w.registry.generations
    ensures Claimed(w, c, events, lease).world.registry.shards.Keys ==
      w.registry.shards.Keys + if ClaimCheck(w.registry, c) == Ok(true) && !lease.Spent() then {(c.gen, c.shard)}
        else {}
  {
    hide ClaimCheck, Stage, Replay;
    match Write(w, ClaimShard(w.registry, c), lease) {
      case Halt(_) =>
      case Continue(w1, lease1) =>
        assert (c.gen, c.shard) in w1.registry.shards by { hide *; ClaimHolds(w, c, lease); }
        StageShards(w1, c, events, lease1);
        assert Replay(w1, c).world == w1 by { ReplayKeeps(w1, c); }
    }
  }

  lemma ClaimHolds(w: World, c: Claim, lease: Lease)
    ensures var p := Write(w, ClaimShard(w.registry, c), lease);
      p.Continue? ==> (c.gen, c.shard) in p.world.registry.shards
  {
  }

  lemma StageShards(w: World, c: Claim, events: seq<SnapshotEvent>, lease: Lease)
    requires (c.gen, c.shard) in w.registry.shards
    ensures Stage(w, c, events, lease).world.registry.shards.Keys == w.registry.shards.Keys
  {
    hide Append;
    forall w1: World, l: Lease | w1.registry.shards.Keys == w.registry.shards.Keys
      ensures Append(w1, c, events, l).world.registry.shards.Keys == w.registry.shards.Keys
    {
      AppendShards(w1, c, events, l);
    }
  }

  lemma CloseShards(w: World, c: Claim, commit: Commit, lease: Lease)
    requires (c.gen, c.shard) in w.registry.shards
    ensures Close(w, c, commit, lease).world.registry.shards.Keys == w.registry.shards.Keys
  {
    hide Settle, Write;
    WriteShards(w, RecordCommit(w.registry, commit), lease);
    match Write(w, RecordCommit(w.registry, commit), lease)
    case Halt(_) =>
    case Continue(w1, lease1) => SettleShards(w1, c, commit, lease1);
  }

  function After(p: Progress): World { if p.Continue? then p.world else p.call.world }

  lemma WriteShards(w: World, r: Result<Registry>, lease: Lease)
    requires r.Ok? ==> r.value.shards.Keys == w.registry.shards.Keys
    ensures After(Write(w, r, lease)).registry.shards.Keys == w.registry.shards.Keys
  {
  }

  lemma MarkKeepsShards(r: Registry, id: ShardId, to: ShardState)
    ensures MarkShard(r, id, to).Ok? ==> MarkShard(r, id, to).value.shards.Keys == r.shards.Keys
  {
  }

  lemma SettleShards(w: World, c: Claim, commit: Commit, lease: Lease)
    requires (c.gen, c.shard) in w.registry.shards
    ensures Settle(w, c, commit, lease).world.registry.shards.Keys == w.registry.shards.Keys
  {
    hide MarkShard, Write;
    var id := (c.gen, c.shard);
    MarkKeepsShards(w.registry, id, COMMITTED);
    WriteShards(w, MarkShard(w.registry, id, COMMITTED), lease);
    match Write(w, MarkShard(w.registry, id, COMMITTED), lease) {
      case Halt(_) =>
      case Continue(w1, lease1) =>
        MarkKeepsShards(w1.registry, id, RECONCILED);
        WriteShards(w1, MarkShard(w1.registry, id, RECONCILED), lease1);
    }
  }

  lemma AppendShards(w: World, c: Claim, events: seq<SnapshotEvent>, lease: Lease)
    requires (c.gen, c.shard) in w.registry.shards
    ensures Append(w, c, events, lease).world.registry.shards.Keys == w.registry.shards.Keys
  {
    hide SnapshotForToken, Appended, SortBy, Images, CommitOf, Close;
    TokenMeans(TableOf(w, c.table).log, c.token);
    forall w1: World, k, l | w1.registry == w.registry
      ensures Close(w1, c, k, l).world.registry.shards.Keys == w.registry.shards.Keys
    {
      CloseShards(w1, c, k, l);
    }
  }

  /**
  With the proof stored, a load changes the set of shards if and only if the table is
  not one of the snapshot's, its events are valid, its shard is new and the load lives
  to make one write.
  */
  lemma StrayShardIff(w: World, gen: string, table: string, events: seq<SnapshotEvent>, lease: Lease)
    requires Inv(w) && Proven(w, gen)
    ensures var shards := LoadShard(w, gen, table, events, lease).world.registry.shards;
      && (shards.Keys != w.registry.shards.Keys <==>
            && table !in COUNTS && (gen, ShardName(table)) !in w.registry.shards && !lease.Spent()
            && EventsFault(events, gen, table, w.registry.generations[gen].record.run) == None)
      && (shards.Keys != w.registry.shards.Keys ==> shards.Keys == w.registry.shards.Keys + {(gen, ShardName(table))})
  {
    hide EventsFault, Claimed, Logs, Generations, Landed, Ledgered, ClaimCheck, Shards;
    var c := ClaimOf(gen, table, events);
    assert ProofFits(w, gen);
    ClaimedShards(w, c, events, lease);
    ClaimIsNew(w, c);
  }

  lemma ClaimIsNew(w: World, c: Claim)
    requires Inv(w) && ClaimFits(c) && c.gen in w.registry.generations
    requires w.registry.generations[c.gen].state == SNAPSHOT_LOADING
    ensures ClaimCheck(w.registry, c) == Ok(true) <==> (c.gen, c.shard) !in w.registry.shards
  {
    hide Logs, Proofs, Generations, Landed, Ledgered;
    forall id | id in w.registry.shards && id.0 == c.gen && id.1 != c.shard
      ensures w.registry.shards[id].claim.token != c.token && w.registry.shards[id].claim.idempotency != c.idempotency
    {
      assert ShardFits(w, id);
    }
  }

  lemma MoveKeepsShards(r: Registry, gen: string, expected: int, to: GenerationState, decision: Option<Proof>)
    ensures Move(r, gen, expected, to, decision).Ok? ==> Move(r, gen, expected, to, decision).value.shards == r.shards
  {
  }

  lemma PromoteKeepsShards(w: World, gen: string, proof: Proof, lease: Lease)
    ensures Promote(w, gen, proof, lease).world.registry.shards.Keys == w.registry.shards.Keys
  {
    hide Move, Write;
    if gen in w.registry.generations {
      var r := Move(w.registry, gen, w.registry.generations[gen].revision, CDC_APPLYING, Some(proof));
      MoveKeepsShards(w.registry, gen, w.registry.generations[gen].revision, CDC_APPLYING, Some(proof));
      WriteShards(w, r, lease);
    }
  }

  lemma ProofKeepsShards(r: Registry, gen: string, p: Proof)
    ensures RecordProof(r, gen, p).Ok? ==> RecordProof(r, gen, p).value.shards == r.shards
  {
    hide CompleteProof;
  }

  lemma AdmitKeepsShards(w: World, gen: string, digests: map<string, seq<Row>>, lease: Lease)
    ensures Admit(w, gen, digests, lease).world.registry.shards.Keys == w.registry.shards.Keys
  {
    hide TargetFault, CompleteShards, ProofOf, RecordProof, Write, Promote;
    var p := ProofOf(w, gen);
    ProofKeepsShards(w.registry, gen, p);
    WriteShards(w, RecordProof(w.registry, gen, p), lease);
    match Write(w, RecordProof(w.registry, gen, p), lease) {
      case Halt(_) =>
      case Continue(w1, lease1) => PromoteKeepsShards(w1, gen, p, lease1);
    }
  }

  /** Shards are never removed. */
  lemma StepKeepsShards(w: World, op: Op)
    ensures w.registry.shards.Keys <= Step(w, op).registry.shards.Keys
  {
    hide EventsFault, Claimed, IsHex64, Admit, ClaimCheck;
    match op
    case LoadOp(gen, table, events, lease) =>
      if gen in w.registry.generations { ClaimedShards(w, ClaimOf(gen, table, events), events, lease); }
    case AdmitOp(gen, digests, lease) => AdmitKeepsShards(w, gen, digests, lease);
    case _ =>
  }

  lemma {:induction false} RunKeepsShards(w: World, ops: seq<Op>)
    ensures w.registry.shards.Keys <= Run(w, ops).registry.shards.Keys
    decreases |ops|
  {
    hide Step;
    if ops != [] {
      StepKeepsShards(w, ops[0]);
      RunKeepsShards(Step(w, ops[0]), ops[1..]);
    }
  }

  /** A shard of another table is not reconciled, so its generation is not admitted. */
  lemma StrayBlocks(w: World, gen: string, table: string, digests: map<string, seq<Row>>, lease: Lease)
    requires Inv(w) && table !in COUNTS && (gen, ShardName(table)) in w.registry.shards
    ensures w.registry.shards[(gen, ShardName(table))].state != RECONCILED
    ensures Admit(w, gen, digests, lease) == Refused(w, CBL015_INCOMPLETE_SHARD_SET)
  {
    hide Logs, Proofs, Generations, Ledgered;
    var id := (gen, ShardName(table));
    assert ShardFits(w, id);
    NamesTellApart(w.registry.shards[id].claim.table, table);
    assert id in ShardsOf(w.registry, gen);
  }

  /**
  From then on, whatever is registered, moved, loaded or tried: the stray shard is never
  reconciled, and every admission of the generation is refused.
  */
  lemma StrayShardBlocksForever(w: World, gen: string, table: string, ops: seq<Op>, digests: map<string, seq<Row>>,
                                lease: Lease)
    requires Inv(w) && table !in COUNTS && (gen, ShardName(table)) in w.registry.shards
    ensures var w' := Run(w, ops);
      && (gen, ShardName(table)) in w'.registry.shards
      && w'.registry.shards[(gen, ShardName(table))].state != RECONCILED
      && Admit(w', gen, digests, lease) == Refused(w', CBL015_INCOMPLETE_SHARD_SET)
  {
    hide Inv, Run, Admit;
    RunKeeps(w, ops);
    RunKeepsShards(w, ops);
    StrayBlocks(Run(w, ops), gen, table, digests, lease);
  }

  /** Only a transition requested outside admission, naming the stored proof, still moves the generation on. */
  lemma ProvenMayMove(w: World, gen: string)
    requires Inv(w) && Proven(w, gen)
    ensures var r :=
      Move(w.registry, gen, w.registry.generations[gen].revision, CDC_APPLYING, Some(w.registry.proofs[gen]));
      r.Ok? && r.value.generations[gen].state == CDC_APPLYING && r.value.shards == w.registry.shards
  {
    hide Logs, Shards, Generations;
    assert ProofFits(w, gen);
  }

  /** The world after a complete first load of a table. */
  function Loaded(w: World, c: Claim, events: seq<SnapshotEvent>): World
  {
    var t := Appended(Table([], []), c, events);
    var k := CommitOf(c, t, 0);
    var w1 := WithState(w, c, RECONCILED);
    World(w1.registry.(commits := w1.registry.commits[(c.gen, c.token) := k]), w.tables[c.table := t])
  }

  lemma FirstSettle(w: World, c: Claim, commit: Commit)
    requires (c.gen, c.shard) in w.registry.shards && w.registry.shards[(c.gen, c.shard)] == Shard(c, STAGED)
    ensures Settle(w, c, commit, Unlimited) == Returned(WithState(w, c, RECONCILED), commit)
  {
    var w1, w2 := WithState(w, c, COMMITTED), WithState(WithState(w, c, COMMITTED), c, RECONCILED);
    assert w2.registry.shards == w.registry.shards[(c.gen, c.shard) := Shard(c, RECONCILED)];
    assert MarkShard(w.registry, (c.gen, c.shard), COMMITTED) == Ok(w1.registry) && w1.registry != w.registry;
    assert MarkShard(w1.registry, (c.gen, c.shard), RECONCILED) == Ok(w2.registry) && w2.registry != w1.registry;
  }

  lemma FirstClose(w: World, c: Claim, commit: Commit)
    requires (c.gen, c.shard) in w.registry.shards && w.registry.shards[(c.gen, c.shard)] == Shard(c, STAGED)
    requires commit.gen == c.gen && commit.shard == c.shard && commit.token == c.token
    requires (c.gen, c.token) !in w.registry.commits
    ensures var w1 := w.(registry := w.registry.(commits := w.registry.commits[(c.gen, c.token) := commit]));
      Close(w, c, commit, Unlimited) == Returned(WithState(w1, c, RECONCILED), commit)
  {
    hide Settle;
    var w1 := w.(registry := w.registry.(commits := w.registry.commits[(c.gen, c.token) := commit]));
    FirstSettle(w1, c, commit);
  }

  lemma FirstAppend(w: World, c: Claim, events: seq<SnapshotEvent>)
    requires (c.gen, c.shard) in w.registry.shards && w.registry.shards[(c.gen, c.shard)] == Shard(c, STAGED)
    requires c.table in COUNTS && c.table !in w.tables && (c.gen, c.token) !in w.registry.commits
    ensures Append(w, c, events, Unlimited)
         == Returned(Loaded(w, c, events), CommitOf(c, Appended(Table([], []), c, events), 0))
  {
    hide Close, SortBy;
    var t := Appended(Table([], []), c, events);
    assert [] + Images(events) == Images(events);
    FirstClose(w.(tables := w.tables[c.table := t]), c, CommitOf(c, t, 0));
  }

  lemma FirstStage(w: World, c: Claim, events: seq<SnapshotEvent>)
    requires (c.gen, c.shard) in w.registry.shards && w.registry.shards[(c.gen, c.shard)] == Shard(c, CLAIMED)
    requires c.table in COUNTS && c.table !in w.tables && (c.gen, c.token) !in w.registry.commits
    ensures Stage(w, c, events, Unlimited).world == Loaded(w, c, events)
  {
    hide Append, CommitOf, Appended;
    var w1 := WithState(w, c, STAGED);
    assert MarkShard(w.registry, (c.gen, c.shard), STAGED) == Ok(w1.registry) && w1.registry != w.registry;
    FirstAppend(w1, c, events);
    assert w1.registry.shards[(c.gen, c.shard) := Shard(c, RECONCILED)] == WithState(w, c, RECONCILED).registry.shards;
  }

  lemma FirstLoad(w: World, gen: string, table: string, events: seq<SnapshotEvent>)
    requires Inv(w) && gen in w.registry.generations && w.registry.generations[gen].state == SNAPSHOT_LOADING
    requires EventsFault(events, gen, table, w.registry.generations[gen].record.run) == None
    requires table in COUNTS && table !in w.tables && (gen, ShardName(table)) !in w.registry.shards
    requires (gen, ClaimOf(gen, table, events).token) !in w.registry.commits
    ensures LoadShard(w, gen, table, events, Unlimited).world == Loaded(w, ClaimOf(gen, table, events), events)
  {
    hide EventsFault, Inv, ClaimCheck, Stage, CommitOf, Appended;
    var c := ClaimOf(gen, table, events);
    ClaimIsNew(w, c);
    var w1 := WithState(w, c, CLAIMED);
    assert ClaimShard(w.registry, c) == Ok(w1.registry) && w1.registry != w.registry;
    FirstStage(w1, c, events);
    assert w1.registry.shards[(c.gen, c.shard) := Shard(c, RECONCILED)] == WithState(w, c, RECONCILED).registry.shards;
  }

  function Marks(n: nat): string { seq(n, _ => '0') }

  function LineageOf(table: string): Lineage
  {
    if table == "orders" then
      Lineage("postgresql", "changebridge", "public", "orders_source_contract_v1_1", "1.1.0", ORDERS_DIGEST,
              "orders/1.1.0",
              ORDERS_DIGEST)
    else
      Lineage("postgresql", "changebridge", "public", "order_items_source_contract", "1.0.0", ITEMS_DIGEST,
              "order_items/1.0.0",
              ITEMS_DIGEST)
  }

  function RowEvent(gen: string, run: string, table: string, i: nat): SnapshotEvent
  {
    SnapshotEvent(Marks(i), Marks(i), gen, run, "snapshot", table, LineageOf(table), "postgres_lsn", FRONTIER, None,
                  Some(Row(Marks(i), map[])), [Marks(i)])
  }

  /** A valid shard of `n` rows. */
  function RowEvents(gen: string, run: string, table: string, n: nat): (r: seq<SnapshotEvent>)
    ensures |r| == n
  {
    seq(n, i requires 0 <= i < n => RowEvent(gen, run, table, i))
  }

  lemma LineageOk(table: string)
    ensures LineageFits(table, LineageOf(table))
  {
  }

  lemma RowFits(gen: string, run: string, table: string, k: nat, keys: set<string>)
    requires Marks(k) !in keys
    ensures EventFault(RowEvent(gen, run, table, k), gen, table, run, keys) == None
  {
    hide LineageFits, LineageOf, Marks;
    LineageOk(table);
  }

  lemma {:induction false} RowsScan(gen: string, run: string, table: string, n: nat, k: nat, keys: set<string>)
    requires k <= n && forall key :: key in keys ==> |key| < k
    ensures ScanFault(RowEvents(gen, run, table, n)[k..], gen, table, run, keys) == None
    decreases n - k
  {
    hide EventFault, LineageOf;
    if k < n {
      var events := RowEvents(gen, run, table, n);
      assert events[k..][0] == RowEvent(gen, run, table, k) && events[k..][1..] == events[k + 1..];
      assert |Marks(k)| == k;
      RowFits(gen, run, table, k, keys);
      RowsScan(gen, run, table, n, k + 1, keys + {Marks(k)});
    }
  }

  lemma RowsAreValid(gen: string, run: string, table: string, n: nat)
    requires n > 0
    ensures EventsFault(RowEvents(gen, run, table, n), gen, table, run) == None
  {
    RowsScan(gen, run, table, n, 0, {});
    assert RowEvents(gen, run, table, n)[0..] == RowEvents(gen, run, table, n);
  }

  function WitnessRecord(): Record
  {
    Record("generation-" + Marks(24), Marks(64), "run", FRONTIER, "", "", "warehouse", "namespace",
           map["order_items" := "order_items", "orders" := "orders"])
  }

  /** Registered and moved to loading. */
  function Opened(): World
  {
    var record := WitnessRecord();
    START.(registry := EMPTY.(generations := map[record.gen := Generation(record, SNAPSHOT_LOADING, 1)],
                              transitions := [Transition(record.gen, CREATED, SNAPSHOT_LOADING, 0, 1, None)]))
  }

  lemma Opens()
    ensures var record := WitnessRecord();
      Step(Step(START, RegisterOp(record)), MoveOp(record.gen, 0, SNAPSHOT_LOADING, None)) == Opened()
  {
    var record := WitnessRecord();
    assert Marks(64)[..24] == Marks(24);
    assert IsHex64(Marks(64));
    assert record.tableMap.Keys == {"order_items", "orders"};
    var created := Generation(record, CREATED, 0);
    var r1 := EMPTY.(generations := map[record.gen := created]);
    assert RegisterGeneration(EMPTY, record) == Ok(r1);
    assert r1.generations[record.gen := created.(state := SNAPSHOT_LOADING, revision := 1)]
        == Opened().registry.generations;
  }

  /** Both tables loaded. */
  function BothLoaded(): World
  {
    var gen := WitnessRecord().gen;
    var orders, items := RowEvents(gen, "run", "orders", 6), RowEvents(gen, "run", "order_items", 66);
    Loaded(Loaded(Opened(), ClaimOf(gen, "orders", orders), orders), ClaimOf(gen, "order_items", items), items)
  }

  lemma Loads()
    requires Inv(Opened())
    ensures var gen := WitnessRecord().gen;
      Step(Step(Opened(), LoadOp(gen, "orders", RowEvents(gen, "run", "orders", 6), Unlimited)),
           LoadOp(gen, "order_items", RowEvents(gen, "run", "order_items", 66), Unlimited)) == BothLoaded()
  {
    hide Inv, LoadShard, EventsFault, CommitOf, RowEvents, Appended;
    var gen := WitnessRecord().gen;
    var orders, items := RowEvents(gen, "run", "orders", 6), RowEvents(gen, "run", "order_items", 66);
    RowsAreValid(gen, "run", "orders", 6);
    RowsAreValid(gen, "run", "order_items", 66);
    FirstLoad(Opened(), gen, "orders", orders);
    var w := Loaded(Opened(), ClaimOf(gen, "orders", orders), orders);
    StepKeeps(Opened(), LoadOp(gen, "orders", orders, Unlimited));
    assert ShardName("orders") != ShardName("order_items") by {
      assert |ShardName("orders")| != |ShardName("order_items")|;
    }
    FirstLoad(w, gen, "order_items", items);
  }

  lemma BothRows()
    ensures var w := BothLoaded();
      && "orders" in w.tables && "order_items" in w.tables
      && |w.tables["orders"].rows| == 6 && |w.tables["order_items"].rows| == 66
  {
    hide CommitOf, WithState, RowEvents;
  }

  lemma BothComplete()
    ensures var gen, w := WitnessRecord().gen, BothLoaded();
      && CompleteShards(w.registry, gen) && gen in w.registry.generations && gen !in w.registry.proofs
      && w.registry.generations[gen] == Generation(WitnessRecord(), SNAPSHOT_LOADING, 1)
      && (gen, ShardName("customers")) !in w.registry.shards
  {
    hide CommitOf, Appended, RowEvents;
    assert |ShardName("customers")| != |ShardName("orders")| && |ShardName("customers")| != |ShardName("order_items")|;
    var gen, w := WitnessRecord().gen, BothLoaded();
    var a, b := (gen, ShardName("orders")), (gen, ShardName("order_items"));
    assert a != b by { assert |ShardName("orders")| != |ShardName("order_items")|; }
    assert w.registry.shards.Keys == {a, b};
    assert ShardsOf(w.registry, gen) == {a, b};
  }

  /** Killed after the proof, before the transition. */
  lemma ProofThenKilled(w: World, gen: string) returns (digests: map<string, seq<Row>>)
    requires CompleteShards(w.registry, gen) && gen in w.registry.generations && gen !in w.registry.proofs
    requires w.registry.generations[gen].state == SNAPSHOT_LOADING && w.registry.generations[gen].revision == 1
    requires "orders" in w.tables && "order_items" in w.tables
    requires |w.tables["orders"].rows| == 6 && |w.tables["order_items"].rows| == 66
    ensures var w' := Step(w, AdmitOp(gen, digests, Writes(1)));
      Proven(w', gen) && w'.registry.shards == w.registry.shards && w'.registry.generations == w.registry.generations
  {
    hide SortBy, CompleteShards, Images, Promote, Move;
    digests := map["orders" := Logical(w.tables["orders"]), "order_items" := Logical(w.tables["order_items"])];
    var p := ProofOf(w, gen);
    var w1 := w.(registry := w.registry.(proofs := w.registry.proofs[gen := p]));
    assert RecordProof(w.registry, gen, p) == Ok(w1.registry) && w1.registry != w.registry;
    KilledAtPromote(w1, gen, p);
  }

  lemma KilledAtPromote(w: World, gen: string, p: Proof)
    requires Proven(w, gen) && w.registry.proofs[gen] == p && p.verdict == "PASS"
    requires w.registry.generations[gen].revision == 1
    ensures Promote(w, gen, p, Writes(0)) == Dead(w)
  {
  }

  /**
  It happens: from empty stores, a registration, a transition, both loads and an
  admission killed between its two writes reach a world in which one valid load of a
  third table blocks the generation's admission for good.
  */
  lemma StrayShardIsReachable() returns (ops: seq<Op>, gen: string, stray: Op)
    ensures Proven(Run(START, ops), gen) && stray.LoadOp? && stray.gen == gen
    ensures (gen, ShardName(stray.table)) !in Run(START, ops).registry.shards
    ensures forall later, digests, lease ::
      Admit(Run(START, ops + [stray] + later), gen, digests, lease)
        == Refused(Run(START, ops + [stray] + later), CBL015_INCOMPLETE_SHARD_SET)
  {
    hide Step, Run, Inv, Proven, BothLoaded, Opened, RowEvents, LoadShard, EventsFault, Admit;
    var record := WitnessRecord();
    gen := record.gen;
    var orders, items := RowEvents(gen, "run", "orders", 6), RowEvents(gen, "run", "order_items", 66);
    Opens();
    BothRows();
    BothComplete();
    var digests := ProofThenKilled(BothLoaded(), gen);
    ops := [RegisterOp(record), MoveOp(gen, 0, SNAPSHOT_LOADING, None), LoadOp(gen, "orders", orders, Unlimited),
            LoadOp(gen, "order_items", items, Unlimited), AdmitOp(gen, digests, Writes(1))];
    StartFits();
    StepKeeps(START, ops[0]);
    StepKeeps(Step(START, ops[0]), ops[1]);
    Loads();
    FiveSteps(START, ops);
    RunKeeps(START, ops);
    stray := LoadOp(gen, "customers", RowEvents(gen, "run", "customers", 1), Unlimited);
    StrayLoads(Run(START, ops), gen, stray);
    forall later, digests, lease
      ensures Admit(Run(START, ops + [stray] + later), gen, digests, lease)
           == Refused(Run(START, ops + [stray] + later), CBL015_INCOMPLETE_SHARD_SET)
    {
      RunAppend(START, ops + [stray], later);
      RunAppend(START, ops, [stray]);
      OneStep(Run(START, ops), stray);
      StepKeeps(Run(START, ops), stray);
      StrayShardBlocksForever(Step(Run(START, ops), stray), gen, "customers", later, digests, lease);
    }
  }

  lemma StartFits()
    ensures Inv(START)
  {
  }

  lemma OneStep(w: World, op: Op)
    ensures Run(w, [op]) == Step(w, op)
  {
    hide Step;
    assert [op][1..] == [];
  }

  lemma FiveSteps(w: World, ops: seq<Op>)
    requires |ops| == 5
    ensures Run(w, ops) == Step(Step(Step(Step(Step(w, ops[0]), ops[1]), ops[2]), ops[3]), ops[4])
  {
    hide Step;
    var w4 := Step(Step(Step(Step(w, ops[0]), ops[1]), ops[2]), ops[3]);
    assert ops == [ops[0]] + [ops[1]] + [ops[2]] + [ops[3]] + [ops[4]];
    RunAppend(w, [ops[0]] + [ops[1]] + [ops[2]] + [ops[3]], [ops[4]]);
    RunAppend(w, [ops[0]] + [ops[1]] + [ops[2]], [ops[3]]);
    RunAppend(w, [ops[0]] + [ops[1]], [ops[2]]);
    RunAppend(w, [ops[0]], [ops[1]]);
    OneStep(w, ops[0]);
    OneStep(Step(w, ops[0]), ops[1]);
    OneStep(Step(Step(w, ops[0]), ops[1]), ops[2]);
    OneStep(Step(Step(Step(w, ops[0]), ops[1]), ops[2]), ops[3]);
    OneStep(w4, ops[4]);
  }

  lemma {:induction false} RunAppend(w: World, a: seq<Op>, b: seq<Op>)
    ensures Run(w, a + b) == Run(Run(w, a), b)
    decreases |a|
  {
    hide Step;
    if a == [] {
      assert a + b == b;
    } else {
      assert (a + b)[0] == a[0] && (a + b)[1..] == a[1..] + b;
      RunAppend(Step(w, a[0]), a[1..], b);
    }
  }

  lemma StrayLoads(w: World, gen: string, stray: Op)
    requires Inv(w) && Proven(w, gen) && w.registry.generations[gen].record.run == "run"
    requires (gen, ShardName("customers")) !in w.registry.shards
    requires stray == LoadOp(gen, "customers", RowEvents(gen, "run", "customers", 1), Unlimited)
    ensures (gen, ShardName("customers")) in Step(w, stray).registry.shards
  {
    hide Inv, RowEvents, LoadShard, EventsFault;
    RowsAreValid(gen, "run", "customers", 1);
    StrayShardIff(w, gen, "customers", stray.events, Unlimited);
  }
}
