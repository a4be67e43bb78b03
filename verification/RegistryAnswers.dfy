/**
What the generation registry answers in every run: which registrations and transitions
succeed, which claims a shard takes, and that generations never share what they own.
*/
module RegistryAnswers {
  import opened Common
  import opened Events
  import opened GenerationRegistry
  import opened SnapshotLoad
  import opened SnapshotLoadFacts
  import opened SnapshotInvariant

  const DIGITS := "0123456789abcdef"

  /** The workload is a digest, the name is its prefix, and both tables are mapped. */
  ghost predicate WellNamed(record: Record)
  {
    && |record.workload| == 64 && (forall c :: c in record.workload ==> c in DIGITS)
    && record.gen == "generation-" + record.workload[..24]
    && (forall table :: table in record.tableMap <==> table == "orders" || table == "order_items")
  }

  /** Two records that may stand side by side. */
  predicate Disjoint(a: Record, b: Record) { a.warehouse != b.warehouse && a.namespace != b.namespace }

  /** Registered generations are well named, and no two own a warehouse or a namespace together. */
  ghost predicate Owned(r: Registry)
  {
    && (forall g :: g in r.generations ==> WellNamed(r.generations[g].record) && r.generations[g].record.gen == g)
    && (forall g, h :: g in r.generations && h in r.generations && g != h ==>
          Disjoint(r.generations[g].record, r.generations[h].record))
  }

  lemma DigitsMean(s: string)
    ensures IsHex64(s) <==> |s| == 64 && forall c :: c in s ==> c in DIGITS
  {
    forall c: char ensures c in DIGITS <==> '0' <= c <= '9' || 'a' <= c <= 'f' {
      assert DIGITS[0] == '0' && DIGITS[1] == '1' && DIGITS[2] == '2' && DIGITS[3] == '3' && DIGITS[4] == '4';
      assert DIGITS[5] == '5' && DIGITS[6] == '6' && DIGITS[7] == '7' && DIGITS[8] == '8' && DIGITS[9] == '9';
      assert DIGITS[10] == 'a' && DIGITS[11] == 'b' && DIGITS[12] == 'c' && DIGITS[13] == 'd' && DIGITS[14] == 'e';
      assert DIGITS[15] == 'f';
    }
    assert forall i :: 0 <= i < |s| ==> s[i] in s;
  }

  /** Why a record is not registered. */
  ghost function RegistrationRefusal(r: Registry, record: Record): GenerationRegistry.Code
  {
    if |record.workload| != 64 || exists c :: c in record.workload && c !in DIGITS then CBG001_INVALID_WORKLOAD_ID
    else if record.gen != "generation-" + record.workload[..24] then CBG006_GENERATION_ID_MISMATCH
    else if !WellNamed(record) then CBG008_TABLE_MAP
    else if record.gen in r.generations then CBG009_GENERATION_REPLAY_CONFLICT
    else CBG010_PHYSICAL_OWNERSHIP_CONFLICT
  }

  /** The name is registered with this very record, or it is new and all it would own is free. */
  ghost predicate Free(r: Registry, record: Record)
  {
    if record.gen in r.generations then r.generations[record.gen].record == record
    else forall g :: g in r.generations ==> Disjoint(r.generations[g].record, record)
  }

  /**
  Registration.  A record is registered exactly if it is well named and either is what is
  registered under its name, or has a new name and shares neither warehouse nor namespace
  with any generation; a new generation starts created at revision zero.
  */
  lemma RegisterIff(r: Registry, record: Record)
    ensures var after := RegisterGeneration(r, record);
      var found := record.gen in r.generations;
      && (after.Ok? <==> WellNamed(record) && Free(r, record))
      && (after.Ok? && found ==> after.value == r)
      && (after.Ok? && !found ==>
            after.value == r.(generations := r.generations[record.gen := Generation(record, CREATED, 0)]))
      && (after.Err? ==> after.code == RegistrationRefusal(r, record))
  {
    hide IsHex64;
    DigitsMean(record.workload);
    assert record.tableMap.Keys == {"order_items", "orders"} <==>
           (forall table :: table in record.tableMap <==> table == "orders" || table == "order_items") by {
      if forall table :: table in record.tableMap <==> table == "orders" || table == "order_items" {
        forall table ensures table in record.tableMap.Keys <==> table in {"order_items", "orders"} {}
      }
    }
  }

  lemma RegisterOwned(r: Registry, record: Record)
    requires Owned(r) && RegisterGeneration(r, record).Ok?
    ensures Owned(RegisterGeneration(r, record).value)
  {
    hide WellNamed, RegisterGeneration;
    RegisterIff(r, record);
  }

  lemma MoveOwned(r: Registry, gen: string, expected: int, to: GenerationState, decision: Option<Proof>)
    requires Owned(r) && Move(r, gen, expected, to, decision).Ok?
    ensures Owned(Move(r, gen, expected, to, decision).value)
  {
    hide WellNamed;
  }

  lemma LoadKeepsGenerations(w: World, gen: string, table: string, events: seq<SnapshotEvent>, lease: Lease)
    ensures LoadShard(w, gen, table, events, lease).world.registry.generations == w.registry.generations
  {
    hide Claimed, EventsFault;
    ClaimRestarts(w, ClaimOf(gen, table, events), events, lease);
  }

  lemma AdmitOwned(w: World, gen: string, digests: map<string, seq<Row>>, lease: Lease)
    requires Owned(w.registry)
    ensures Owned(Admit(w, gen, digests, lease).world.registry)
  {
    hide Owned, TargetFault, CompleteShards, RecordProof, ProofOf, Promote;
    var proof := ProofOf(w, gen);
    var p := Write(w, RecordProof(w.registry, gen, proof), lease);
    ProofKeepsGenerations(w.registry, gen, proof);
    if p.Continue? {
      SameGenerationsOwned(w.registry, p.world.registry);
      PromoteOwned(p.world, gen, proof, p.lease);
    }
  }

  lemma ProofKeepsGenerations(r: Registry, gen: string, p: Proof)
    ensures RecordProof(r, gen, p).Ok? ==> RecordProof(r, gen, p).value.generations == r.generations
  {
    hide CompleteProof;
  }

  lemma PromoteOwned(w: World, gen: string, proof: Proof, lease: Lease)
    requires Owned(w.registry)
    ensures Owned(Promote(w, gen, proof, lease).world.registry)
  {
    hide Owned, Move;
    if gen in w.registry.generations {
      var revision := w.registry.generations[gen].revision;
      if Move(w.registry, gen, revision, CDC_APPLYING, Some(proof)).Ok? {
        MoveOwned(w.registry, gen, revision, CDC_APPLYING, Some(proof));
      }
    }
  }

  /** In every run, generations are well named and own their storage alone. */
  lemma {:induction false} OwnershipIsExclusive(w: World, ops: seq<Op>)
    requires Owned(w.registry)
    ensures Owned(Run(w, ops).registry)
    decreases |ops|
  {
    hide Owned, RegisterGeneration, Move, LoadShard, Admit;
    if ops != [] {
      match ops[0] {
        case RegisterOp(record) =>
          if RegisterGeneration(w.registry, record).Ok? { RegisterOwned(w.registry, record); }
        case MoveOp(gen, expected, to, decision) =>
          if Move(w.registry, gen, expected, to, decision).Ok? { MoveOwned(w.registry, gen, expected, to, decision); }
        case LoadOp(gen, table, events, lease) =>
          LoadKeepsGenerations(w, gen, table, events, lease);
          SameGenerationsOwned(w.registry, LoadShard(w, gen, table, events, lease).world.registry);
        case AdmitOp(gen, digests, lease) => AdmitOwned(w, gen, digests, lease);
      }
      OwnershipIsExclusive(Step(w, ops[0]), ops[1..]);
    }
  }

  lemma SameGenerationsOwned(a: Registry, b: Registry)
    requires Owned(a) && b.generations == a.generations
    ensures Owned(b)
  {
    hide WellNamed;
  }

  /** The transition that a generation with this many behind it may make next. */
  ghost predicate MayMove(r: Registry, gen: string, made: nat, to: GenerationState, decision: Option<Proof>)
  {
    || (made == 0 && to == SNAPSHOT_LOADING)
    || (made == 1 && to == CDC_APPLYING && gen in r.proofs && decision == Some(r.proofs[gen]))
  }

  /** Why a transition is refused. */
  ghost function MoveRefusal(r: Registry, gen: string, made: nat, expected: int,
                             to: GenerationState): GenerationRegistry.Code
  {
    if gen !in r.generations then CBG011_GENERATION_NOT_FOUND
    else if expected != made then CBG013_STALE_REVISION
    else if made == 1 && to == CDC_APPLYING then CBG025_ADMISSION_PROOF_REQUIRED
    else CBG014_ILLEGAL_TRANSITION
  }

  /**
  A transition, in every run.  It is made exactly if it names the number of transitions
  made so far and is the next one: first to loading, then, with the stored admission
  proof, to applying changes.  Naming the last one again finds it made.  It is written to
  the history, and no other generation moves.
  */
  lemma {:induction false} MoveIff(ops: seq<Op>, gen: string, expected: int, to: GenerationState,
                                   decision: Option<Proof>)
    ensures var r := Run(START, ops).registry;
      var after, ts := Move(r, gen, expected, to, decision), TransitionsOf(r.transitions, gen);
      var again := expected + 1 == |ts| && to == if ts == [] then CREATED else ts[|ts| - 1].to;
      && (after.Ok? <==> gen in r.generations
                         && (again || (expected == |ts| && MayMove(r, gen, |ts|, to, decision))))
      && (after.Ok? && again ==> after.value == r)
      && (after.Ok? && !again ==>
            && after.value == r.(generations := after.value.generations, transitions := after.value.transitions)
            && after.value.transitions == r.transitions
                + [Transition(gen, r.generations[gen].state, to, |ts|, |ts| + 1, decision)]
            && after.value.generations == r.generations[gen := Generation(r.generations[gen].record, to, |ts| + 1)])
      && (after.Err? ==> after.code == MoveRefusal(r, gen, |ts|, expected, to))
  {
    hide Run, TransitionsOf, Logs, Shards, SnapshotInvariant.Done;
    InvOfRun(ops);
    var w := Run(START, ops);
    if gen in w.registry.generations {
      assert GenerationFits(w, gen);
      assert gen in w.registry.proofs ==> ProofFits(w, gen);
    }
  }

  /** The shard was claimed with this very content. */
  ghost predicate ClaimedAs(r: Registry, c: Claim)
  {
    (c.gen, c.shard) in r.shards && r.shards[(c.gen, c.shard)].claim == c
  }

  /**
  A claim for a table's events, in every run.  It is taken exactly in a loading
  generation whose shard of that table is new or was claimed for the same events; a new
  claim adds just its shard, a known one changes nothing.
  */
  lemma {:induction false} ClaimIff(ops: seq<Op>, gen: string, table: string, events: seq<SnapshotEvent>)
    ensures var r, c := Run(START, ops).registry, ClaimOf(gen, table, events);
      var after, id := ClaimShard(r, c), (gen, "snapshot-" + table + "-001");
      var loading := gen in r.generations && r.generations[gen].state == SNAPSHOT_LOADING;
      && (after.Ok? <==> loading && (id in r.shards ==> ClaimedAs(r, c)))
      && (after.Ok? && id in r.shards ==> after.value == r)
      && (after.Ok? && id !in r.shards ==> after.value == r.(shards := r.shards[id := Shard(c, CLAIMED)]))
      && (after.Err? ==> after.code == if gen !in r.generations then CBG011_GENERATION_NOT_FOUND
                                       else if !loading then CBG015_GENERATION_NOT_WRITABLE
                                       else CBG016_SHARD_REPLAY_CONFLICT)
  {
    hide Run, Logs, Proofs, Generations, Shards;
    InvOfRun(ops);
    NewClaim(Run(START, ops), gen, table, events);
  }

  lemma InvOfRun(ops: seq<Op>)
    ensures Inv(Run(START, ops))
  {
    hide Run;
    RunKeeps(START, ops);
  }

  /** Another shard of the generation has the claim's key or its token. */
  ghost predicate KeyUsed(r: Registry, c: Claim)
  {
    exists shard :: (c.gen, shard) in r.shards && (r.shards[(c.gen, shard)].claim.idempotency == c.idempotency
                                                   || r.shards[(c.gen, shard)].claim.token == c.token)
  }

  /** Any claim whatever: a new shard is taken exactly if its key and token are new to the generation. */
  lemma AnyClaimIff(r: Registry, c: Claim)
    requires c.gen in r.generations && r.generations[c.gen].state == SNAPSHOT_LOADING && (c.gen, c.shard) !in r.shards
    ensures ClaimShard(r, c).Ok? <==> !KeyUsed(r, c)
    ensures ClaimShard(r, c).Err? ==> ClaimShard(r, c).code == INTEGRITY_ERROR
  {
    if id :| id in r.shards && id.0 == c.gen
             && (r.shards[id].claim.idempotency == c.idempotency || r.shards[id].claim.token == c.token)
    {
      assert id == (c.gen, id.1);
    }
  }

  /** Tokens name their shard, so a new shard's token is new. */
  lemma NewClaim(w: World, gen: string, table: string, events: seq<SnapshotEvent>)
    requires Shards(w)
    ensures var c := ClaimOf(gen, table, events);
      (gen, ShardName(table)) !in w.registry.shards ==> forall id :: id in w.registry.shards && id.0 == gen ==>
        w.registry.shards[id].claim.token != c.token && w.registry.shards[id].claim.idempotency != c.idempotency
  {
    hide Landed, Ledgered;
    forall id | id in w.registry.shards && id.0 == gen ensures w.registry.shards[id].claim.token.shard == id.1 {
      assert ShardFits(w, id);
    }
  }

  /** Claims that agree are of the same events, as their ids and payload digests tell. */
  lemma ClaimsTellApart(gen: string, table: string, a: seq<SnapshotEvent>, b: seq<SnapshotEvent>)
    ensures ClaimOf(gen, table, a) == ClaimOf(gen, table, b) <==>
            |a| == |b| && forall i :: 0 <= i < |a| ==> a[i].id == b[i].id && a[i].payload == b[i].payload
  {
    if ClaimOf(gen, table, a) == ClaimOf(gen, table, b) {
      forall i | 0 <= i < |a| ensures a[i].id == b[i].id && a[i].payload == b[i].payload {
        assert Ids(a)[i] == Ids(b)[i] && Payloads(a)[i] == Payloads(b)[i];
      }
    }
  }

  /** A shard's state goes from claimed over staged and committed to reconciled, and may skip staged. */
  predicate Follows(from: ShardState, to: ShardState)
  {
    match from
    case CLAIMED => to == STAGED || to == COMMITTED
    case STAGED => to == COMMITTED
    case COMMITTED => to == RECONCILED
    case RECONCILED => false
  }

  lemma MarkIff(r: Registry, id: ShardId, to: ShardState)
    ensures var after := MarkShard(r, id, to);
      && (after.Ok? <==> id in r.shards && (r.shards[id].state == to || Follows(r.shards[id].state, to)))
      && (after.Ok? ==> after.value == r.(shards := after.value.shards) && after.value.shards.Keys == r.shards.Keys
                        && after.value.shards[id] == Shard(r.shards[id].claim, to)
                        && forall other :: other in r.shards && other != id ==>
                            after.value.shards[other] == r.shards[other])
      && (after.Err? ==>
            after.code == if id in r.shards then CBG019_ILLEGAL_SHARD_TRANSITION else CBG017_SHARD_NOT_FOUND)
  {
  }

  /** A target commit is stored once: the same again changes nothing, another is refused. */
  lemma CommitIff(r: Registry, k: Commit)
    ensures var after, known := RecordCommit(r, k), (k.gen, k.token) in r.commits;
      && (after.Ok? <==> if known then r.commits[(k.gen, k.token)] == k else (k.gen, k.shard) in r.shards)
      && (after.Ok? ==> after.value == r.(commits := after.value.commits)
                        && after.value.commits.Keys == r.commits.Keys + {(k.gen, k.token)}
                        && after.value.commits[(k.gen, k.token)] == k
                        && forall other :: other in r.commits ==> after.value.commits[other] == r.commits[other])
      && (after.Err? ==> after.code == if known then CBG020_COMMIT_REPLAY_CONFLICT else INTEGRITY_ERROR)
  {
  }

  /** What an admission proof has to say. */
  ghost predicate Proves(r: Registry, gen: string, p: Proof)
  {
    && p.gen == gen && p.frontier == "0/194FB20" && p.postCdcApplied == 0 && p.reconciled && p.foreign == 0
    && "orders" in p.results && p.results["orders"].rowCount == 6
    && "order_items" in p.results && p.results["order_items"].rowCount == 66
    && TwoReconciled(r, gen)
  }

  /** The generation has two shards, and both are reconciled. */
  ghost predicate TwoReconciled(r: Registry, gen: string)
  {
    exists a, b :: a != b && (forall id :: id in r.shards && id.0 == gen <==> id == a || id == b)
                   && r.shards[a].state == RECONCILED && r.shards[b].state == RECONCILED
  }

  lemma TwoMeans(r: Registry, gen: string)
    ensures CompleteShards(r, gen) <==> TwoReconciled(r, gen)
  {
    hide CompleteShards, TwoReconciled;
    if CompleteShards(r, gen) { CompleteIsTwo(r, gen); }
    if TwoReconciled(r, gen) { TwoIsComplete(r, gen); }
  }

  lemma CompleteIsTwo(r: Registry, gen: string)
    requires CompleteShards(r, gen)
    ensures TwoReconciled(r, gen)
  {
    var a, b := PairOf(ShardsOf(r, gen));
    OwnAre(r, gen, a, b);
    assert r.shards[a].state == RECONCILED && r.shards[b].state == RECONCILED;
  }

  lemma OwnAre(r: Registry, gen: string, a: ShardId, b: ShardId)
    ensures ShardsOf(r, gen) == {a, b} <==> forall id :: id in r.shards && id.0 == gen <==> id == a || id == b
    ensures ShardsOf(r, gen) == {a, b} ==> a in r.shards && b in r.shards
  {
    var own := ShardsOf(r, gen);
    if own == {a, b} {
      assert a in own && b in own;
      forall id ensures id in r.shards && id.0 == gen <==> id == a || id == b { assert id in own <==> id in {a, b}; }
    }
    if forall id :: id in r.shards && id.0 == gen <==> id == a || id == b {
      forall id ensures id in own <==> id in {a, b} {}
    }
  }

  lemma PairOf<T>(s: set<T>) returns (a: T, b: T)
    requires |s| == 2
    ensures a != b && s == {a, b}
  {
    a :| a in s;
    var rest := s - {a};
    assert |rest| == 1;
    b :| b in rest;
    assert |rest - {b}| == 0;
    assert s == {a, b};
  }

  lemma TwoIsComplete(r: Registry, gen: string)
    requires TwoReconciled(r, gen)
    ensures CompleteShards(r, gen)
  {
    var a, b :| a != b && (forall id :: id in r.shards && id.0 == gen <==> id == a || id == b)
                && r.shards[a].state == RECONCILED && r.shards[b].state == RECONCILED;
    OwnAre(r, gen, a, b);
    PairSize(a, b);
  }

  lemma PairSize<T>(a: T, b: T)
    requires a != b
    ensures |{a, b}| == 2
  {
  }

  /**
  An admission proof is stored exactly if it passes, says all it has to and either is the
  stored one or is the first of a registered generation.
  */
  lemma ProofIff(r: Registry, gen: string, p: Proof)
    ensures var after, known := RecordProof(r, gen, p), gen in r.proofs;
      && (after.Ok? <==> p.verdict == "PASS" && Proves(r, gen, p)
                         && (if known then r.proofs[gen] == p else gen in r.generations))
      && (after.Ok? ==> after.value == r.(proofs := after.value.proofs)
                        && after.value.proofs == r.proofs[gen := p])
      && (after.Err? ==> after.code == if p.verdict != "PASS" then CBG022_ADMISSION_FAILED
                                       else if !Proves(r, gen, p) then CBG026_INCOMPLETE_ADMISSION_PROOF
                                       else if known then CBG023_ADMISSION_REPLAY_CONFLICT
                                       else INTEGRITY_ERROR)
  {
    hide CompleteShards, TwoReconciled;
    TwoMeans(r, gen);
  }
}
