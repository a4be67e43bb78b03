/**
What every run of registrations, transitions, shard loads and admissions keeps, with
loads and admissions killed after any durable write.
*/
module SnapshotInvariant {
  import opened Common
  import opened Sorting
  import opened Events
  import opened GenerationRegistry
  import opened SnapshotLoad
  import opened SnapshotLoadFacts

  datatype Op =
    | RegisterOp(record: Record)
    | MoveOp(gen: string, expected: int, to: GenerationState, decision: Option<Proof>)
    | LoadOp(gen: string, table: string, events: seq<SnapshotEvent>, lease: Lease)
    | AdmitOp(gen: string, digests: map<string, seq<Row>>, lease: Lease)

  function Kept(w: World, r: Result<Registry>): World { if r.Ok? then w.(registry := r.value) else w }

  function Step(w: World, op: Op): World
  {
    match op
    case RegisterOp(record) => Kept(w, RegisterGeneration(w.registry, record))
    case MoveOp(gen, expected, to, decision) => Kept(w, Move(w.registry, gen, expected, to, decision))
    case LoadOp(gen, table, events, lease) => LoadShard(w, gen, table, events, lease).world
    case AdmitOp(gen, digests, lease) => Admit(w, gen, digests, lease).world
  }

  function Run(w: World, ops: seq<Op>): World
    decreases |ops|
  {
    if ops == [] then w else Run(Step(w, ops[0]), ops[1..])
  }

  const START := World(EMPTY, map[])

  /** Each token labels at most one snapshot of a table. */
  ghost predicate TokensOnce(log: seq<Summary>)
  {
    forall i, j :: 0 <= i < j < |log| ==> log[i].token != log[j].token
  }

  function ShardName(table: string): string { "snapshot-" + table + "-001" }

  /** The ledger has the shard's target commit. */
  ghost predicate Ledgered(w: World, c: Claim)
  {
    && (c.gen, c.token) in w.registry.commits
    && var k := w.registry.commits[(c.gen, c.token)];
       && k.gen == c.gen && k.shard == c.shard && k.token == c.token && k.table == c.table && k.input == c.input
       && k.rowCount == c.rowCount && |k.logical| == c.rowCount
  }

  ghost predicate ClaimFits(c: Claim)
  {
    c.shard == ShardName(c.table) && c.token == c.idempotency == Token(c.gen, c.shard, c.input)
  }

  ghost predicate ShardFits(w: World, id: ShardId)
    requires id in w.registry.shards
  {
    var s := w.registry.shards[id];
    && ClaimFits(s.claim) && id == (s.claim.gen, s.claim.shard) && s.claim.gen in w.registry.generations
    && (s.state in {COMMITTED, RECONCILED} ==> Landed(w, s.claim) && Ledgered(w, s.claim))
  }

  ghost predicate Done(w: World, gen: string, table: string)
  {
    (gen, ShardName(table)) in w.registry.shards && w.registry.shards[(gen, ShardName(table))].state == RECONCILED
  }

  ghost predicate ProofFits(w: World, gen: string)
    requires gen in w.registry.proofs
  {
    && w.registry.proofs[gen].verdict == "PASS" && w.registry.proofs[gen].gen == gen && gen in w.registry.generations
    && Done(w, gen, "orders") && Done(w, gen, "order_items")
  }

  function TransitionsOf(ts: seq<Transition>, gen: string): seq<Transition>
  {
    if ts == [] then []
    else TransitionsOf(ts[..|ts| - 1], gen) + (if ts[|ts| - 1].gen == gen then [ts[|ts| - 1]] else [])
  }

  /** The state after `n` transitions. */
  function StateAt(n: nat): GenerationState
  {
    if n == 0 then CREATED else if n == 1 then SNAPSHOT_LOADING else CDC_APPLYING
  }

  /** The revision counts the transitions, which lead from CREATED to the current state. */
  ghost predicate GenerationFits(w: World, gen: string)
    requires gen in w.registry.generations
  {
    var g, ts := w.registry.generations[gen], TransitionsOf(w.registry.transitions, gen);
    && g.revision == |ts| <= 2 && g.state == StateAt(|ts|)
    && (forall i :: 0 <= i < |ts| ==>
          ts[i].expected == i && ts[i].resulting == i + 1 && ts[i].from == StateAt(i) && ts[i].to == StateAt(i + 1))
    && (g.state == CDC_APPLYING ==> gen in w.registry.proofs)
  }

  ghost predicate Logs(w: World) { forall table :: table in w.tables ==> TokensOnce(w.tables[table].log) }

  ghost predicate Shards(w: World) { forall id :: id in w.registry.shards ==> ShardFits(w, id) }

  ghost predicate Proofs(w: World) { forall gen :: gen in w.registry.proofs ==> ProofFits(w, gen) }

  ghost predicate Generations(w: World)
  {
    && (forall gen :: gen in w.registry.generations ==> GenerationFits(w, gen))
    && (forall t :: t in w.registry.transitions ==> t.gen in w.registry.generations)
  }

  ghost predicate Inv(w: World) { Logs(w) && Shards(w) && Proofs(w) && Generations(w) }

  lemma GenerationsFrame(w: World, w': World)
    requires Generations(w)
    requires w'.registry.generations == w.registry.generations && w'.registry.transitions == w.registry.transitions
    requires w.registry.proofs.Keys <= w'.registry.proofs.Keys
    ensures Generations(w')
  {
    hide TransitionsOf;
    forall gen | gen in w'.registry.generations ensures GenerationFits(w', gen) { assert GenerationFits(w, gen); }
  }

  /** Shards that are as they were still fit, when ledger and logs only grew. */
  lemma ShardStays(w: World, w': World, id: ShardId)
    requires id in w.registry.shards && ShardFits(w, id)
    requires id in w'.registry.shards && w'.registry.shards[id] == w.registry.shards[id]
    requires w.registry.generations.Keys <= w'.registry.generations.Keys
    requires forall c :: Ledgered(w, c) ==> Ledgered(w', c)
    requires forall c :: Landed(w, c) ==> Landed(w', c)
    ensures ShardFits(w', id)
  {
  }

  lemma ProofsStay(w: World, w': World)
    requires Proofs(w) && w'.registry.proofs == w.registry.proofs
    requires w.registry.generations.Keys <= w'.registry.generations.Keys
    requires forall id :: id in w.registry.shards && w.registry.shards[id].state == RECONCILED ==>
               id in w'.registry.shards && w'.registry.shards[id].state == RECONCILED
    ensures Proofs(w')
  {
    forall gen | gen in w'.registry.proofs ensures ProofFits(w', gen) { assert ProofFits(w, gen); }
  }

  /** The shard with its state set. */
  function WithState(w: World, c: Claim, state: ShardState): World
  {
    var id := (c.gen, c.shard);
    w.(registry := w.registry.(shards := w.registry.shards[id := GenerationRegistry.Shard(c, state)]))
  }

  ghost predicate Held(w: World, c: Claim)
  {
    (c.gen, c.shard) in w.registry.shards && w.registry.shards[(c.gen, c.shard)].claim == c
  }

  lemma WithStateKeeps(w: World, c: Claim, state: ShardState)
    requires Inv(w) && ClaimFits(c) && c.gen in w.registry.generations
    requires (c.gen, c.shard) in w.registry.shards ==>
               w.registry.shards[(c.gen, c.shard)].claim == c &&
               (w.registry.shards[(c.gen, c.shard)].state == RECONCILED ==> state == RECONCILED)
    requires state in {COMMITTED, RECONCILED} ==> Landed(w, c) && Ledgered(w, c)
    ensures Inv(WithState(w, c, state))
  {
    hide Generations, Logs, Landed, Ledgered, ClaimFits, ProofFits;
    var w' := WithState(w, c, state);
    FrameLanded(w, w');
    forall id | id in w'.registry.shards ensures ShardFits(w', id) {
      if id != (c.gen, c.shard) {
        assert ShardFits(w, id);
        ShardStays(w, w', id);
      }
    }
    GenerationsFrame(w, w');
    ProofsStay(w, w');
    assert Logs(w') by { LogsFrame(w, w'); }
  }

  lemma LogsFrame(w: World, w': World)
    requires Logs(w) && w'.tables == w.tables
    ensures Logs(w')
  {
  }

  lemma FrameLanded(w: World, w': World)
    ensures w'.tables == w.tables ==> forall c :: Landed(w, c) ==> Landed(w', c)
    ensures w'.registry.commits == w.registry.commits ==> forall c :: Ledgered(w, c) ==> Ledgered(w', c)
  {
  }

  lemma CommitKeeps(w: World, k: Commit)
    requires Inv(w) && (k.gen, k.token) !in w.registry.commits
    ensures Inv(w.(registry := w.registry.(commits := w.registry.commits[(k.gen, k.token) := k])))
  {
    hide Generations, Logs, Landed, ClaimFits, ProofFits;
    var w' := w.(registry := w.registry.(commits := w.registry.commits[(k.gen, k.token) := k]));
    FrameLanded(w, w');
    forall id | id in w'.registry.shards ensures ShardFits(w', id) {
      assert ShardFits(w, id);
      ShardStays(w, w', id);
    }
    GenerationsFrame(w, w');
    ProofsStay(w, w');
    LogsFrame(w, w');
  }

  lemma {:induction false} TokenStays(log: seq<Summary>, s: Summary, token: Token)
    ensures SnapshotForToken(log, token).Some? ==> SnapshotForToken(log + [s], token) == SnapshotForToken(log, token)
  {
    assert (log + [s])[..|log|] == log;
  }

  lemma AppendKeeps(w: World, c: Claim, events: seq<SnapshotEvent>)
    requires Inv(w) && SnapshotForToken(TableOf(w, c.table).log, c.token) == None
    ensures Inv(w.(tables := w.tables[c.table := Appended(TableOf(w, c.table), c, events)]))
  {
    hide Generations, Ledgered, ClaimFits, ProofFits, Images, SnapshotForToken;
    var t := TableOf(w, c.table);
    var w' := w.(tables := w.tables[c.table := Appended(t, c, events)]);
    TokenMeans(t.log, c.token);
    assert TokensOnce(Appended(t, c, events).log) by {
      forall i | 0 <= i < |t.log| ensures t.log[i].token != c.token { assert t.log[i] in t.log; }
    }
    FrameLanded(w, w');
    forall d | Landed(w, d) ensures Landed(w', d) { TokenStays(t.log, SummaryOf(c), d.token); }
    forall id | id in w'.registry.shards ensures ShardFits(w', id) {
      assert ShardFits(w, id);
      ShardStays(w, w', id);
    }
    GenerationsFrame(w, w');
    ProofsStay(w, w');
  }

  lemma SettleKeeps(w: World, c: Claim, commit: Commit, lease: Lease)
    requires Inv(w) && Underway(w, c) && Landed(w, c) && Ledgered(w, c)
    ensures Inv(Settle(w, c, commit, lease).world)
  {
    hide Inv, Landed, Ledgered;
    HeldFits(w, c);
    var w1, w2 := WithState(w, c, COMMITTED), WithState(WithState(w, c, COMMITTED), c, RECONCILED);
    FrameLanded(w, w1);
    WithStateKeeps(w, c, COMMITTED);
    WithStateKeeps(w1, c, RECONCILED);
    if StateHeld(w, c) == COMMITTED { assert w1.registry.shards == w.registry.shards; }
    assert Settle(w, c, commit, lease).world in {w, w1, w2};
  }

  lemma HeldFits(w: World, c: Claim)
    requires Inv(w) && Held(w, c)
    ensures ClaimFits(c) && c.gen in w.registry.generations
  {
    assert ShardFits(w, (c.gen, c.shard));
  }

  lemma VerifyKeeps(w: World, c: Claim, events: seq<SnapshotEvent>, i: nat, lease: Lease)
    requires Inv(w) && Underway(w, c) && Landed(w, c) && i < |TableOf(w, c.table).log| && c.rowCount == |events|
    ensures Inv(Verify(w, c, events, i, lease).world)
  {
    hide RowKey, SortBy, StateHeld, TableOf;
    hide Inv, Landed, Settle, Images, Underway;
    var t := TableOf(w, c.table);
    if |t.rows| == |events| && Logical(t) == SortBy(Images(events), RowKey) {
      var k := CommitOf(c, t, i);
      SortFacts(t.rows, RowKey);
      match Write(w, RecordCommit(w.registry, k), lease) {
        case Halt(_) =>
        case Continue(w1, lease1) =>
          if w1 != w { CommitKeeps(w, k); }
          FrameLanded(w, w1);
          UnderwayStays(w, w1, c);
          SettleKeeps(w1, c, k, lease1);
      }
    }
  }

  lemma UnderwayStays(w: World, w': World, c: Claim)
    requires Underway(w, c) && w'.registry.shards == w.registry.shards
    ensures Underway(w', c)
  {
  }

  lemma AppendStepKeeps(w: World, c: Claim, events: seq<SnapshotEvent>, lease: Lease)
    requires Inv(w) && Underway(w, c) && c.rowCount == |events|
    ensures Inv(Append(w, c, events, lease).world)
  {
    hide Inv, Verify, Underway, SnapshotForToken;
    var t := TableOf(w, c.table);
    if c.table in COUNTS {
      TokenMeans(t.log, c.token);
      match SnapshotForToken(t.log, c.token) {
        case Some(i) =>
          if t.log[i].input == c.input { VerifyKeeps(w, c, events, i, lease); }
        case None =>
          if !lease.Spent() {
            var w1 := w.(tables := w.tables[c.table := Appended(t, c, events)]);
            AppendFinds(w, c, events);
            AppendKeeps(w, c, events);
            UnderwayStays(w, w1, c);
            VerifyKeeps(w1, c, events, |t.log|, lease.Next());
          }
      }
    }
  }

  lemma StageKeeps(w: World, c: Claim, events: seq<SnapshotEvent>, lease: Lease)
    requires Inv(w) && Open(w, c) && c.rowCount == |events|
    ensures Inv(Stage(w, c, events, lease).world)
  {
    hide Inv, Append;
    HeldFits(w, c);
    if StateHeld(w, c) == CLAIMED {
      if !lease.Spent() {
        WithStateKeeps(w, c, STAGED);
        AppendStepKeeps(WithState(w, c, STAGED), c, events, lease.Next());
      }
    } else {
      AppendStepKeeps(w, c, events, lease);
    }
  }

  lemma LoadKeeps(w: World, gen: string, table: string, events: seq<SnapshotEvent>, lease: Lease)
    requires Inv(w)
    ensures Inv(LoadShard(w, gen, table, events, lease).world)
  {
    hide Inv, Stage, EventsFault, Replay;
    var c := ClaimOf(gen, table, events);
    match Write(w, ClaimShard(w.registry, c), lease) {
      case Halt(_) =>
      case Continue(w1, lease1) =>
        if w1 != w {
          WithStateKeeps(w, c, CLAIMED);
          assert w1 == WithState(w, c, CLAIMED);
        }
        if StateHeld(w1, c) != RECONCILED { StageKeeps(w1, c, events, lease1); }
        assert Replay(w1, c).world == w1 by { ReplayKeeps(w1, c); }
    }
  }

  lemma ReplayKeeps(w: World, c: Claim)
    ensures Replay(w, c).world == w
  {
  }

  lemma TransitionsGrow(ts: seq<Transition>, t: Transition, gen: string)
    ensures TransitionsOf(ts + [t], gen) == TransitionsOf(ts, gen) + (if t.gen == gen then [t] else [])
  {
    assert (ts + [t])[..|ts|] == ts;
  }

  lemma MovedFits(w: World, w': World, gen: string, to: GenerationState, decision: Option<Proof>)
    requires gen in w.registry.generations && GenerationFits(w, gen)
    requires AllowedTransition(w.registry.generations[gen].state, to)
    requires (to == CDC_APPLYING ==> gen in w'.registry.proofs)
    requires var g := w.registry.generations[gen];
             && gen in w'.registry.generations
             && w'.registry.generations[gen] == g.(state := to, revision := g.revision + 1)
             && w'.registry.transitions ==
                  w.registry.transitions + [Transition(gen, g.state, to, g.revision, g.revision + 1, decision)]
    ensures GenerationFits(w', gen)
  {
    hide TransitionsOf;
    var g := w.registry.generations[gen];
    TransitionsGrow(w.registry.transitions, Transition(gen, g.state, to, g.revision, g.revision + 1, decision), gen);
  }

  lemma MoveFits(w: World, gen: string, expected: int, to: GenerationState, decision: Option<Proof>)
    requires Generations(w) && Move(w.registry, gen, expected, to, decision).Ok?
    ensures Generations(w.(registry := Move(w.registry, gen, expected, to, decision).value))
  {
    hide TransitionsOf, GenerationFits;
    var w' := w.(registry := Move(w.registry, gen, expected, to, decision).value);
    if w' != w {
      MovedFits(w, w', gen, to, decision);
      var g := w.registry.generations[gen];
      forall other | other in w'.registry.generations && other != gen ensures GenerationFits(w', other) {
        OtherFits(w, w', Transition(gen, g.state, to, g.revision, g.revision + 1, decision), other);
      }
    }
  }

  lemma OtherFits(w: World, w': World, t: Transition, gen: string)
    requires gen in w.registry.generations && GenerationFits(w, gen) && gen != t.gen
    requires gen in w'.registry.generations && w'.registry.generations[gen] == w.registry.generations[gen]
    requires w'.registry.transitions == w.registry.transitions + [t] && w'.registry.proofs == w.registry.proofs
    ensures GenerationFits(w', gen)
  {
    hide TransitionsOf;
    TransitionsGrow(w.registry.transitions, t, gen);
  }

  lemma MoveKeeps(w: World, gen: string, expected: int, to: GenerationState, decision: Option<Proof>)
    requires Inv(w)
    ensures Inv(Kept(w, Move(w.registry, gen, expected, to, decision)))
  {
    hide Generations, Logs, Landed, Ledgered, ClaimFits, ProofFits;
    var w' := Kept(w, Move(w.registry, gen, expected, to, decision));
    if Move(w.registry, gen, expected, to, decision).Ok? {
      MoveFits(w, gen, expected, to, decision);
      FrameLanded(w, w');
      forall id | id in w'.registry.shards ensures ShardFits(w', id) {
        assert ShardFits(w, id);
        ShardStays(w, w', id);
      }
      ProofsStay(w, w');
      LogsFrame(w, w');
    }
  }

  lemma {:induction false} NoTransitions(ts: seq<Transition>, gen: string)
    requires forall t :: t in ts ==> t.gen != gen
    ensures TransitionsOf(ts, gen) == []
  {
    if ts != [] { NoTransitions(ts[..|ts| - 1], gen); }
  }

  lemma RegisterKeeps(w: World, record: Record)
    requires Inv(w)
    ensures Inv(Kept(w, RegisterGeneration(w.registry, record)))
  {
    hide Landed, Ledgered, Logs, ClaimFits, ProofFits, IsHex64, TransitionsOf, GenerationFits;
    var w' := Kept(w, RegisterGeneration(w.registry, record));
    if w' != w {
      FrameLanded(w, w');
      forall g | g in w'.registry.generations ensures GenerationFits(w', g) {
        if g == record.gen { NewFits(w, w', g); } else { SameFits(w, w', g); }
      }
      forall id | id in w'.registry.shards ensures ShardFits(w', id) {
        assert ShardFits(w, id);
        ShardStays(w, w', id);
      }
      ProofsStay(w, w');
      LogsFrame(w, w');
    }
  }

  lemma NewFits(w: World, w': World, gen: string)
    requires Generations(w) && gen !in w.registry.generations && w'.registry.transitions == w.registry.transitions
    requires gen in w'.registry.generations && w'.registry.generations[gen].state == CREATED
    requires w'.registry.generations[gen].revision == 0
    ensures GenerationFits(w', gen)
  {
    NoTransitions(w.registry.transitions, gen);
  }

  lemma SameFits(w: World, w': World, gen: string)
    requires gen in w.registry.generations && GenerationFits(w, gen)
    requires gen in w'.registry.generations && w'.registry.generations[gen] == w.registry.generations[gen]
    requires w'.registry.transitions == w.registry.transitions && w'.registry.proofs == w.registry.proofs
    ensures GenerationFits(w', gen)
  {
  }

  /** Two reconciled shards are those of the two known tables: no other table can be reconciled. */
  lemma CompleteMeans(w: World, gen: string)
    requires Inv(w) && CompleteShards(w.registry, gen)
    ensures Done(w, gen, "orders") && Done(w, gen, "order_items")
  {
    hide Ledgered, TransitionsOf, TokensOnce, SnapshotForToken;
    var own := ShardsOf(w.registry, gen);
    var known := {(gen, ShardName("orders")), (gen, ShardName("order_items"))};
    forall id | id in own ensures id in known {
      assert ShardFits(w, id);
    }
    assert ShardName("orders") != ShardName("order_items") by {
      assert |ShardName("orders")| != |ShardName("order_items")|;
    }
    Fills(own, known);
    assert (gen, ShardName("orders")) in own && (gen, ShardName("order_items")) in own;
  }

  lemma Fills<T>(a: set<T>, b: set<T>)
    requires a <= b && |a| >= |b|
    ensures a == b
  {
    assert b == a + (b - a);
  }

  lemma ProofKeeps(w: World, gen: string, p: Proof)
    requires Inv(w) && RecordProof(w.registry, gen, p).Ok?
    ensures Inv(w.(registry := RecordProof(w.registry, gen, p).value))
  {
    hide Landed, Ledgered, Logs, ClaimFits, Generations, CompleteShards;
    var w' := w.(registry := RecordProof(w.registry, gen, p).value);
    if w' != w {
      CompleteMeans(w, gen);
      FrameLanded(w, w');
      forall id | id in w'.registry.shards ensures ShardFits(w', id) {
        assert ShardFits(w, id);
        ShardStays(w, w', id);
      }
      forall g | g in w'.registry.proofs ensures ProofFits(w', g) {
        if g in w.registry.proofs { assert ProofFits(w, g); }
      }
      GenerationsFrame(w, w');
      LogsFrame(w, w');
    }
  }

  lemma AdmitKeeps(w: World, gen: string, digests: map<string, seq<Row>>, lease: Lease)
    requires Inv(w)
    ensures Inv(Admit(w, gen, digests, lease).world)
  {
    hide Inv, Move, RecordProof, TargetFault, CompleteShards, ProofOf;
    var proof := ProofOf(w, gen);
    match Write(w, RecordProof(w.registry, gen, proof), lease) {
      case Halt(_) =>
      case Continue(w1, lease1) =>
        ProofKeeps(w, gen, proof);
        if gen in w1.registry.generations {
          MoveKeeps(w1, gen, w1.registry.generations[gen].revision, CDC_APPLYING, Some(proof));
        }
    }
  }

  lemma StepKeeps(w: World, op: Op)
    requires Inv(w)
    ensures Inv(Step(w, op))
  {
    hide Inv, LoadShard, Admit, Move, RegisterGeneration;
    match op
    case RegisterOp(record) => RegisterKeeps(w, record);
    case MoveOp(gen, expected, to, decision) => MoveKeeps(w, gen, expected, to, decision);
    case LoadOp(gen, table, events, lease) => LoadKeeps(w, gen, table, events, lease);
    case AdmitOp(gen, digests, lease) => AdmitKeeps(w, gen, digests, lease);
  }

  /** The invariant holds after every run from empty stores. */
  lemma {:induction false} RunKeeps(w: World, ops: seq<Op>)
    requires Inv(w)
    ensures Inv(Run(w, ops))
    decreases |ops|
  {
    hide Inv, Step;
    if ops != [] {
      StepKeeps(w, ops[0]);
      RunKeeps(Step(w, ops[0]), ops[1..]);
    }
  }

  /**
  In every run: a table's log has each token at most once; a reconciled shard's token
  labels a snapshot of its table and has a matching target commit; the revision of a
  generation is the number of its transitions; and a CDC_APPLYING generation has a
  stored PASS proof and both table shards reconciled.
  */
  lemma SnapshotSafety(ops: seq<Op>)
    ensures var w := Run(START, ops);
            && (forall table :: table in w.tables ==> TokensOnce(w.tables[table].log))
            && (forall id :: id in w.registry.shards && w.registry.shards[id].state == RECONCILED ==>
                  Landed(w, w.registry.shards[id].claim) && Ledgered(w, w.registry.shards[id].claim))
            && (forall gen :: gen in w.registry.generations ==>
                  w.registry.generations[gen].revision == |TransitionsOf(w.registry.transitions, gen)|)
            && (forall gen :: gen in w.registry.generations && w.registry.generations[gen].state == CDC_APPLYING ==>
                  gen in w.registry.proofs && w.registry.proofs[gen].verdict == "PASS"
                  && Done(w, gen, "orders") && Done(w, gen, "order_items"))
  {
    hide Landed, Ledgered, TokensOnce, TransitionsOf, Done, Run;
    RunKeeps(START, ops);
    var w := Run(START, ops);
    forall id | id in w.registry.shards && w.registry.shards[id].state == RECONCILED
      ensures Landed(w, w.registry.shards[id].claim) && Ledgered(w, w.registry.shards[id].claim)
    {
      assert ShardFits(w, id);
    }
    forall gen | gen in w.registry.generations
      ensures w.registry.generations[gen].revision == |TransitionsOf(w.registry.transitions, gen)|
      ensures w.registry.generations[gen].state == CDC_APPLYING ==>
                gen in w.registry.proofs && ProofFits(w, gen)
    {
      assert GenerationFits(w, gen);
    }
  }
}
