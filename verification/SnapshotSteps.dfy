/**
A first shard load and an admission, write by write: what is durable after each number of
writes if the process is killed then.
*/
module SnapshotSteps {
  import opened Common
  import opened Sorting
  import opened Events
  import opened GenerationRegistry
  import opened SnapshotLoad
  import opened SnapshotLoadFacts
  import opened SnapshotInvariant
  import opened RegistryAnswers
  import opened SnapshotAnswers

  /** The shard is `c`'s, in this state. */
  ghost predicate ShardIs(w: World, c: Claim, state: ShardState)
  {
    (c.gen, c.shard) in w.registry.shards && w.registry.shards[(c.gen, c.shard)] == GenerationRegistry.Shard(c, state)
  }

  /** The target commit of a first load. */
  function FirstCommit(c: Claim, events: seq<SnapshotEvent>): Commit
  {
    CommitOf(c, Appended(SnapshotLoad.Table([], []), c, events), 0)
  }

  /** What a first load has written after `n` writes: claim, stage, rows, commit, two states. */
  ghost predicate LoadedSoFar(w: World, w': World, c: Claim, events: seq<SnapshotEvent>, n: nat)
  {
    var id := (c.gen, c.shard);
    && (n == 0 ==> id !in w'.registry.shards)
    && (n == 1 ==> ShardIs(w', c, CLAIMED))
    && (2 <= n <= 4 ==> ShardIs(w', c, STAGED))
    && (n == 5 ==> ShardIs(w', c, COMMITTED))
    && (n >= 6 ==> ShardIs(w', c, RECONCILED))
    && w'.tables == (if n < 3 then w.tables else w.tables[c.table := Appended(SnapshotLoad.Table([], []), c, events)])
    && w'.registry.commits == (if n < 4 then w.registry.commits
                               else w.registry.commits[(c.gen, c.token) := FirstCommit(c, events)])
    && w'.registry == w.registry.(shards := w'.registry.shards, commits := w'.registry.commits)
    && (forall other :: other != id ==> (other in w'.registry.shards <==> other in w.registry.shards))
    && (forall other :: other != id && other in w.registry.shards ==>
          w'.registry.shards[other] == w.registry.shards[other])
  }

  /** The state after settling's `n` writes. */
  lemma SettleSteps(w: World, c: Claim, commit: Commit, n: nat)
    requires ShardIs(w, c, STAGED)
    ensures var call := Settle(w, c, commit, Writes(n));
      && (call.Killed? <==> n < 2) && (call.Returned? <==> n >= 2) && (call.Returned? ==> call.commit == commit)
      && call.world == if n == 0 then w else Marked(w, c, if n == 1 then COMMITTED else RECONCILED)
  {
    hide Settle;
    SettleForm(w, c, commit, Writes(n));
  }

  lemma CloseSteps(w: World, c: Claim, commit: Commit, n: nat)
    requires ShardIs(w, c, STAGED) && commit.gen == c.gen && commit.shard == c.shard && commit.token == c.token
    requires (c.gen, c.token) !in w.registry.commits
    ensures var call := Close(w, c, commit, Writes(n));
      var w1 := w.(registry := w.registry.(commits := w.registry.commits[(c.gen, c.token) := commit]));
      && (call.Killed? <==> n < 3) && (call.Returned? <==> n >= 3) && (call.Returned? ==> call.commit == commit)
      && call.world == if n == 0 then w else if n == 1 then w1
                       else Marked(w1, c, if n == 2 then COMMITTED else RECONCILED)
  {
    hide Settle;
    var w1 := w.(registry := w.registry.(commits := w.registry.commits[(c.gen, c.token) := commit]));
    if n > 0 { SettleSteps(w1, c, commit, n - 1); }
  }

  lemma AppendSteps(w: World, c: Claim, events: seq<SnapshotEvent>, n: nat)
    requires ShardIs(w, c, STAGED) && c.table in COUNTS && c.table !in w.tables
    requires (c.gen, c.token) !in w.registry.commits
    ensures var call := Append(w, c, events, Writes(n));
      var w1 := w.(tables := w.tables[c.table := Appended(SnapshotLoad.Table([], []), c, events)]);
      && call == if n == 0 then Killed(w) else Close(w1, c, FirstCommit(c, events), Writes(n - 1))
  {
    hide Close, SortBy;
    assert [] + Images(events) == Images(events);
  }

  lemma StageSteps(w: World, c: Claim, events: seq<SnapshotEvent>, n: nat)
    requires ShardIs(w, c, CLAIMED)
    ensures Stage(w, c, events, Writes(n)) ==
              if n == 0 then Killed(w) else Append(Marked(w, c, STAGED), c, events, Writes(n - 1))
  {
    hide Append, MarkShard, Write;
    MarkWrites(w, c, STAGED, Writes(n));
  }

  /** A table's first load: valid events, a new shard, a table not there yet. */
  ghost predicate FirstTime(w: World, gen: string, table: string, events: seq<SnapshotEvent>)
  {
    && gen in w.registry.generations && w.registry.generations[gen].state == SNAPSHOT_LOADING
    && MakeShard(events, gen, table, w.registry.generations[gen].record.run)
    && (table == "orders" || table == "order_items") && table !in w.tables
    && (gen, ShardName(table)) !in w.registry.shards
    && (gen, ClaimOf(gen, table, events).token) !in w.registry.commits
  }

  lemma ClaimSteps(w: World, gen: string, table: string, events: seq<SnapshotEvent>, n: nat)
    requires Inv(w) && FirstTime(w, gen, table, events)
    ensures LoadShard(w, gen, table, events, Writes(n)) ==
              if n == 0 then Killed(w)
              else Stage(Opened(w, ClaimOf(gen, table, events)), ClaimOf(gen, table, events), events, Writes(n - 1))
  {
    hide EventsFault, MakeShard, Stage, ClaimCheck, Replay, Logs, Proofs, Generations, Shards;
    var c := ClaimOf(gen, table, events);
    EventsAnswer(events, gen, table, w.registry.generations[gen].record.run);
    ClaimTaken(w, gen, table, events);
    ClaimOpens(w, c, events, Writes(n));
    if n > 0 { ClaimFound(Opened(w, c), c, events, Writes(n - 1)); }
  }

  /**
  A first load under every lease: it is killed exactly if it has fewer than six writes,
  and has then made just the first ones: the claim, the staged state, the rows with their
  snapshot, the target commit, the committed and the reconciled state.
  */
  lemma LoadSteps(w: World, gen: string, table: string, events: seq<SnapshotEvent>, n: nat)
    requires Inv(w) && FirstTime(w, gen, table, events)
    ensures var call, c := LoadShard(w, gen, table, events, Writes(n)), ClaimOf(gen, table, events);
      && (call.Killed? <==> n < 6) && (call.Returned? <==> n >= 6)
      && LoadedSoFar(w, call.world, c, events, n)
      && (call.Returned? ==> call.commit == FirstCommit(c, events))
  {
    hide LoadShard, Stage, Append, Close, Appended, CommitOf, Inv, MakeShard;
    var c := ClaimOf(gen, table, events);
    ClaimSteps(w, gen, table, events, n);
    if n > 0 {
      var w1 := Opened(w, c);
      StageSteps(w1, c, events, n - 1);
      if n > 1 {
        var w2 := Marked(w1, c, STAGED);
        AppendSteps(w2, c, events, n - 2);
        if n > 2 {
          FirstCommitNames(c, events);
          var w3 := w2.(tables := w2.tables[c.table := Appended(SnapshotLoad.Table([], []), c, events)]);
          CloseSteps(w3, c, FirstCommit(c, events), n - 3);
        }
      }
    }
  }

  lemma FirstCommitNames(c: Claim, events: seq<SnapshotEvent>)
    ensures var k := FirstCommit(c, events); k.gen == c.gen && k.shard == c.shard && k.token == c.token
  {
  }

  /**
  An admission under every lease, where the proof is not stored yet and a complete one
  would succeed: killed with no write it leaves all as it was, with one just the stored
  proof, and with two it is over.
  */
  lemma AdmitSteps(w: World, gen: string, digests: map<string, seq<Row>>, n: nat)
    requires Shards(w) && Admittable(w, gen, digests) && gen !in w.registry.proofs
    ensures var call := Admit(w, gen, digests, Writes(n));
      && (call.Dead? <==> n < 2)
      && (n == 0 ==> call.world == w)
      && (n == 1 ==> call.world == w.(registry := w.registry.(proofs := w.registry.proofs[gen := ProofOf(w, gen)])))
      && (n >= 2 ==> call == Admit(w, gen, digests, Unlimited) && call.Admitted?)
  {
    hide Shards, CompleteShards, TwoReconciled, TargetFault, TargetsHold, ProofOf, Admittable, CompleteProof;
    AdmitAnswers(w, gen, digests);
    AdmittableMeans(w, gen, digests);
    ProofPasses(w, gen, digests);
  }

  lemma AdmittableMeans(w: World, gen: string, digests: map<string, seq<Row>>)
    requires Admittable(w, gen, digests)
    ensures TwoReconciled(w.registry, gen) && TargetsHold(w, digests) && gen in w.registry.generations
    ensures w.registry.generations[gen].state == SNAPSHOT_LOADING
    ensures CompleteShards(w.registry, gen) && TargetFault(w, digests) == None
  {
    hide TwoReconciled, CompleteShards, TargetFault, TargetsHold, ProofSays;
    TwoMeans(w.registry, gen);
    TargetMeans(w, digests);
  }
}
