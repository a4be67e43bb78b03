/**
Recovery and admission of snapshot loads: calls killed after any durable write do not
change what a later complete call achieves, and what every run keeps.
*/
module SnapshotLoadFacts {
  import opened Common
  import opened Events
  import opened GenerationRegistry
  import opened SnapshotLoad

  function StateHeld(w: World, c: Claim): ShardState
    requires (c.gen, c.shard) in w.registry.shards
  {
    w.registry.shards[(c.gen, c.shard)].state
  }

  /** The shard is claimed as `c`, and its work was begun but not finished. */
  ghost predicate Underway(w: World, c: Claim)
  {
    && (c.gen, c.shard) in w.registry.shards && w.registry.shards[(c.gen, c.shard)].claim == c
    && StateHeld(w, c) in {STAGED, COMMITTED}
  }

  /** Only this shard's state and the ledger move. */
  ghost predicate OnlyShard(w: World, w': World, c: Claim)
  {
    && w'.registry == w.registry.(shards := w'.registry.shards, commits := w'.registry.commits)
    && w'.registry.shards.Keys == w.registry.shards.Keys
    && (forall id :: id in w.registry.shards ==> w'.registry.shards[id].claim == w.registry.shards[id].claim)
    && (forall id :: id in w.registry.shards && id != (c.gen, c.shard) ==>
            w'.registry.shards[id] == w.registry.shards[id])
  }

  ghost predicate Recorded(w: World, c: Claim, commit: Commit)
  {
    (c.gen, c.token) in w.registry.commits && w.registry.commits[(c.gen, c.token)] == commit
  }

  /** The world with the shard's state set. */
  function Marked(w: World, c: Claim, state: ShardState): World
    requires (c.gen, c.shard) in w.registry.shards
  {
    var id := (c.gen, c.shard);
    w.(registry := w.registry.(shards := w.registry.shards[id := w.registry.shards[id].(state := state)]))
  }

  lemma MarkWrites(w: World, c: Claim, state: ShardState, lease: Lease)
    requires (c.gen, c.shard) in w.registry.shards && AllowedShard(StateHeld(w, c), state)
    ensures Write(w, MarkShard(w.registry, (c.gen, c.shard), state), lease) ==
              if lease.Spent() then Halt(Killed(w)) else Continue(Marked(w, c, state), lease.Next())
  {
    assert Marked(w, c, state).registry.shards[(c.gen, c.shard)].state == state;
  }

  lemma MarkAgain(w: World, c: Claim, lease: Lease)
    requires (c.gen, c.shard) in w.registry.shards
    ensures Write(w, MarkShard(w.registry, (c.gen, c.shard), StateHeld(w, c)), lease) == Continue(w, lease)
  {
  }

  lemma MarkedTwice(w: World, c: Claim, a: ShardState, b: ShardState)
    requires (c.gen, c.shard) in w.registry.shards
    ensures Marked(Marked(w, c, a), c, b) == Marked(w, c, b)
  {
  }

  /** What settling does, whatever the lease. */
  lemma SettleForm(w: World, c: Claim, commit: Commit, lease: Lease)
    requires Underway(w, c)
    ensures Settle(w, c, commit, lease) ==
              if lease.Spent() then Killed(w)
              else if StateHeld(w, c) == COMMITTED then Returned(Marked(w, c, RECONCILED), commit)
              else if lease.Next().Spent() then Killed(Marked(w, c, COMMITTED))
              else Returned(Marked(w, c, RECONCILED), commit)
  {
    hide Write, MarkShard;
    if StateHeld(w, c) == COMMITTED {
      MarkAgain(w, c, lease);
      MarkWrites(w, c, RECONCILED, lease);
    } else {
      MarkWrites(w, c, COMMITTED, lease);
      if !lease.Spent() {
        MarkWrites(Marked(w, c, COMMITTED), c, RECONCILED, lease.Next());
        MarkedTwice(w, c, COMMITTED, RECONCILED);
      }
    }
  }

  lemma SettleRestarts(w: World, c: Claim, commit: Commit, lease: Lease)
    requires Underway(w, c)
    ensures var call := Settle(w, c, commit, lease);
            && call.world.tables == w.tables && OnlyShard(w, call.world, c)
               && call.world.registry.commits == w.registry.commits
            && (!call.Returned? ==>
                  Underway(call.world, c)
                  && Settle(call.world, c, commit, Unlimited) == Settle(w, c, commit, Unlimited))
            && (call.Returned? ==>
                  call == Settle(w, c, commit, Unlimited) && StateHeld(call.world, c) == RECONCILED
                  && call.commit == commit)
  {
    hide Settle;
    SettleForm(w, c, commit, lease);
    SettleForm(w, c, commit, Unlimited);
    var w' := Settle(w, c, commit, lease).world;
    if Underway(w', c) {
      SettleForm(w', c, commit, Unlimited);
      MarkedTwice(w, c, COMMITTED, RECONCILED);
    }
  }

  lemma OnlyShardThen(a: World, b: World, d: World, c: Claim)
    requires OnlyShard(a, b, c) && OnlyShard(b, d, c)
    ensures OnlyShard(a, d, c)
  {
  }

  lemma MarkedOnly(w: World, c: Claim, state: ShardState)
    requires (c.gen, c.shard) in w.registry.shards
    ensures OnlyShard(w, Marked(w, c, state), c)
  {
  }

  /** Recording a target commit: it is refused, or from then on recorded. */
  lemma CommitWrites(w: World, c: Claim, commit: Commit, lease: Lease)
    requires Underway(w, c) && commit.gen == c.gen && commit.shard == c.shard && commit.token == c.token
    ensures var p := Write(w, RecordCommit(w.registry, commit), lease);
            && (p.Halt? ==> p.call.world == w && !p.call.Returned?)
            && (p.Continue? ==>
                  && p.world.tables == w.tables && OnlyShard(w, p.world, c) && Underway(p.world, c)
                  && Recorded(p.world, c, commit)
                  && Write(w, RecordCommit(w.registry, commit), Unlimited) == Continue(p.world, Unlimited))
  {
  }

  lemma CommitFound(w: World, c: Claim, commit: Commit, lease: Lease)
    requires Recorded(w, c, commit) && commit.gen == c.gen && commit.token == c.token
    ensures Write(w, RecordCommit(w.registry, commit), lease) == Continue(w, lease)
  {
  }

  lemma OnlyItself(w: World, c: Claim)
    ensures OnlyShard(w, w, c)
  {
  }

  lemma CloseRestarts(w: World, c: Claim, commit: Commit, lease: Lease)
    requires Underway(w, c) && commit.gen == c.gen && commit.shard == c.shard && commit.token == c.token
    ensures var call := Close(w, c, commit, lease);
            && call.world.tables == w.tables && OnlyShard(w, call.world, c)
            && (!call.Returned? ==>
                  Underway(call.world, c) && Close(call.world, c, commit, Unlimited) == Close(w, c, commit, Unlimited))
            && (call.Returned? ==>
                  && call == Close(w, c, commit, Unlimited) && StateHeld(call.world, c) == RECONCILED
                  && call.commit == commit && Recorded(call.world, c, commit))
  {
    hide Settle, Write, RecordCommit, OnlyShard, Underway;
    CommitWrites(w, c, commit, lease);
    match Write(w, RecordCommit(w.registry, commit), lease) {
      case Halt(_) => OnlyItself(w, c);
      case Continue(w1, lease1) =>
        SettleRestarts(w1, c, commit, lease1);
        var w' := Settle(w1, c, commit, lease1).world;
        OnlyShardThen(w, w1, w', c);
        CommitFound(w', c, commit, Unlimited);
    }
  }

  lemma VerifyRestarts(w: World, c: Claim, events: seq<SnapshotEvent>, i: nat, lease: Lease)
    requires Underway(w, c) && i < |TableOf(w, c.table).log|
    ensures var call := Verify(w, c, events, i, lease);
            && call.world.tables == w.tables && OnlyShard(w, call.world, c)
            && (!call.Returned? ==> Underway(call.world, c))
            && (!call.Returned? ==> Verify(call.world, c, events, i, Unlimited) == Verify(w, c, events, i, Unlimited))
            && (call.Returned? ==>
                  && call == Verify(w, c, events, i, Unlimited) && StateHeld(call.world, c) == RECONCILED
                  && call.commit == CommitOf(c, TableOf(w, c.table), i) && Recorded(call.world, c, call.commit))
  {
    hide Close, Logical, Underway;
    CloseRestarts(w, c, CommitOf(c, TableOf(w, c.table), i), lease);
  }

  /** The token labels a snapshot of the shard's table. */
  ghost predicate Landed(w: World, c: Claim)
  {
    c.table in COUNTS && SnapshotForToken(TableOf(w, c.table).log, c.token).Some?
  }

  lemma AppendFinds(w: World, c: Claim, events: seq<SnapshotEvent>)
    requires SnapshotForToken(TableOf(w, c.table).log, c.token) == None
    ensures var w1 := w.(tables := w.tables[c.table := Appended(TableOf(w, c.table), c, events)]);
            && TableOf(w1, c.table) == Appended(TableOf(w, c.table), c, events)
            && SnapshotForToken(TableOf(w1, c.table).log, c.token) == Some(|TableOf(w, c.table).log|)
            && TableOf(w1, c.table).log[|TableOf(w, c.table).log|].input == c.input
  {
    var log := TableOf(w, c.table).log;
    assert (log + [SummaryOf(c)])[..|log|] == log;
  }

  lemma AppendRestarts(w: World, c: Claim, events: seq<SnapshotEvent>, lease: Lease)
    requires Underway(w, c)
    ensures var call := Append(w, c, events, lease);
            && OnlyShard(w, call.world, c)
            && (!call.Returned? ==>
                  Underway(call.world, c)
                  && Append(call.world, c, events, Unlimited) == Append(w, c, events, Unlimited))
            && (call.Returned? ==>
                  && call == Append(w, c, events, Unlimited) && StateHeld(call.world, c) == RECONCILED
                  && Landed(call.world, c)
                  && Recorded(call.world, c, call.commit))
  {
    hide CommitOf, Images, SnapshotForToken, StateHeld, SummaryOf;
    hide Verify, Underway, Logical;
    var t := TableOf(w, c.table);
    if c.table in COUNTS {
      TokenMeans(t.log, c.token);
      match SnapshotForToken(t.log, c.token) {
        case Some(i) =>
          if t.log[i].input == c.input { VerifyRestarts(w, c, events, i, lease); }
        case None =>
          if !lease.Spent() {
            var w1 := w.(tables := w.tables[c.table := Appended(t, c, events)]);
            AppendFinds(w, c, events);
            UnderwayFrame(w, w1, c);
            VerifyRestarts(w1, c, events, |t.log|, lease.Next());
          }
      }
    }
  }

  lemma UnderwayFrame(w: World, w': World, c: Claim)
    requires Underway(w, c) && w'.registry == w.registry
    ensures Underway(w', c)
  {
  }

  /** The shard is claimed as `c` and not yet reconciled. */
  ghost predicate Open(w: World, c: Claim)
  {
    && (c.gen, c.shard) in w.registry.shards && w.registry.shards[(c.gen, c.shard)].claim == c
    && StateHeld(w, c) != RECONCILED
  }

  lemma StageRestarts(w: World, c: Claim, events: seq<SnapshotEvent>, lease: Lease)
    requires Open(w, c)
    ensures var call := Stage(w, c, events, lease);
            && OnlyShard(w, call.world, c)
            && (!call.Returned? ==>
                  Open(call.world, c) && Stage(call.world, c, events, Unlimited) == Stage(w, c, events, Unlimited))
            && (call.Returned? ==>
                  && call == Stage(w, c, events, Unlimited) && StateHeld(call.world, c) == RECONCILED
                  && Landed(call.world, c)
                  && Recorded(call.world, c, call.commit))
  {
    hide Append, Landed, Recorded, Write, MarkShard, OnlyShard, Underway;
    if StateHeld(w, c) == CLAIMED {
      var w1 := Marked(w, c, STAGED);
      MarkWrites(w, c, STAGED, lease);
      MarkWrites(w, c, STAGED, Unlimited);
      OnlyItself(w, c);
      if !lease.Spent() {
        MarkedOnly(w, c, STAGED);
        StagedIsUnderway(w, c);
        AppendRestarts(w1, c, events, lease.Next());
        var w' := Append(w1, c, events, lease.Next()).world;
        OnlyShardThen(w, w1, w', c);
        UnderwayIsOpen(w', c);
      }
    } else {
      OpenIsUnderway(w, c);
      AppendRestarts(w, c, events, lease);
      UnderwayIsOpen(Append(w, c, events, lease).world, c);
    }
  }

  lemma StagedIsUnderway(w: World, c: Claim)
    requires Open(w, c)
    ensures Underway(Marked(w, c, STAGED), c)
  {
  }

  lemma OpenIsUnderway(w: World, c: Claim)
    requires Open(w, c) && StateHeld(w, c) != CLAIMED
    ensures Underway(w, c)
  {
  }

  lemma UnderwayIsOpen(w: World, c: Claim)
    ensures Underway(w, c) ==> Open(w, c) && StateHeld(w, c) != CLAIMED
  {
  }

  /** The shard is held under this very claim, in a generation that takes claims. */
  ghost predicate Holding(w: World, c: Claim)
  {
    && (c.gen, c.shard) in w.registry.shards && w.registry.shards[(c.gen, c.shard)].claim == c
    && c.gen in w.registry.generations && w.registry.generations[c.gen].state == SNAPSHOT_LOADING
  }

  lemma ClaimFound(w: World, c: Claim, events: seq<SnapshotEvent>, lease: Lease)
    requires Holding(w, c)
    ensures Claimed(w, c, events, lease) ==
              if StateHeld(w, c) == RECONCILED then Replay(w, c) else Stage(w, c, events, lease)
  {
    hide Stage, Replay;
  }

  lemma ReplayAnswers(w: World, c: Claim, commit: Commit)
    requires Landed(w, c) && Recorded(w, c, commit)
    ensures Replay(w, c) == Returned(w, commit)
  {
  }

  lemma ReplayStays(w: World, c: Claim)
    ensures Replay(w, c).world == w
  {
  }

  lemma HoldingStays(w: World, w': World, c: Claim)
    requires Holding(w, c) && OnlyShard(w, w', c)
    ensures Holding(w', c)
  {
  }

  /** A claim that is held, resumed. */
  lemma HeldRestarts(w: World, c: Claim, events: seq<SnapshotEvent>, lease: Lease)
    requires Holding(w, c)
    ensures var call := Claimed(w, c, events, lease);
            && (!call.Returned? ==> Claimed(call.world, c, events, Unlimited) == Claimed(w, c, events, Unlimited))
            && (call.Returned? ==>
                  call == Claimed(w, c, events, Unlimited) == Claimed(call.world, c, events, Unlimited))
            && call.world.registry.generations == w.registry.generations
  {
    hide Stage, Replay, Claimed, Landed, Recorded;
    ClaimFound(w, c, events, lease);
    ClaimFound(w, c, events, Unlimited);
    var call := Claimed(w, c, events, lease);
    if StateHeld(w, c) == RECONCILED {
      ReplayStays(w, c);
    } else {
      StageRestarts(w, c, events, lease);
      HoldingStays(w, call.world, c);
      ClaimFound(call.world, c, events, Unlimited);
      if call.Returned? { ReplayAnswers(call.world, c, call.commit); }
    }
  }

  function Opened(w: World, c: Claim): World
  {
    w.(registry := w.registry.(shards := w.registry.shards[(c.gen, c.shard) := GenerationRegistry.Shard(c, CLAIMED)]))
  }

  /** A new claim is written first. */
  lemma ClaimOpens(w: World, c: Claim, events: seq<SnapshotEvent>, lease: Lease)
    requires ClaimCheck(w.registry, c) == Ok(true)
    ensures Holding(Opened(w, c), c)
    ensures Claimed(w, c, events, lease) ==
              if lease.Spent() then Killed(w) else Claimed(Opened(w, c), c, events, lease.Next())
  {
    hide Stage, Replay;
    assert Opened(w, c).registry != w.registry;
    ClaimFound(Opened(w, c), c, events, lease);
  }

  lemma ClaimRestarts(w: World, c: Claim, events: seq<SnapshotEvent>, lease: Lease)
    ensures var call := Claimed(w, c, events, lease);
            && (!call.Returned? ==> Claimed(call.world, c, events, Unlimited) == Claimed(w, c, events, Unlimited))
            && (call.Returned? ==>
                  call == Claimed(w, c, events, Unlimited) == Claimed(call.world, c, events, Unlimited))
            && call.world.registry.generations == w.registry.generations
  {
    hide Claimed, Opened, Holding;
    match ClaimCheck(w.registry, c) {
      case Ok(true) =>
        ClaimOpens(w, c, events, lease);
        ClaimOpens(w, c, events, Unlimited);
        if !lease.Spent() {
          HeldRestarts(Opened(w, c), c, events, lease.Next());
          OpenedGenerations(w, c);
        }
      case Ok(false) =>
        FoundIsHeld(w, c);
        HeldRestarts(w, c, events, lease);
      case Err(_) =>
        ClaimRefused(w, c, events, lease);
        ClaimRefused(w, c, events, Unlimited);
    }
  }

  lemma OpenedGenerations(w: World, c: Claim)
    ensures Opened(w, c).registry.generations == w.registry.generations
  {
  }

  lemma FoundIsHeld(w: World, c: Claim)
    requires ClaimCheck(w.registry, c) == Ok(false)
    ensures Holding(w, c)
  {
  }

  lemma ClaimRefused(w: World, c: Claim, events: seq<SnapshotEvent>, lease: Lease)
    requires ClaimCheck(w.registry, c).Err?
    ensures Claimed(w, c, events, lease) == Raised(w, Control(ClaimCheck(w.registry, c).code))
  {
    hide ClaimCheck;
  }

  function Retries(w: World, gen: string, table: string, events: seq<SnapshotEvent>, leases: seq<Lease>): World
    decreases |leases|
  {
    if leases == [] then w
    else Retries(LoadShard(w, gen, table, events, leases[0]).world, gen, table, events, leases[1..])
  }

  lemma LoadRestarts(w: World, gen: string, table: string, events: seq<SnapshotEvent>, lease: Lease)
    ensures var call := LoadShard(w, gen, table, events, lease);
            && LoadShard(call.world, gen, table, events, Unlimited) == LoadShard(w, gen, table, events, Unlimited)
            && (call.Returned? ==> call == LoadShard(w, gen, table, events, Unlimited))
  {
    hide Claimed, EventsFault;
    if gen in w.registry.generations {
      ClaimRestarts(w, ClaimOf(gen, table, events), events, lease);
    }
  }

  /**
  Crash convergence of a shard load: after any number of calls, each killed after any
  durable write, failed or complete, a complete call gives what a complete first call
  would have given.
  */
  lemma {:induction false} LoadConverges(w: World, gen: string, table: string, events: seq<SnapshotEvent>,
                                         leases: seq<Lease>)
    ensures LoadShard(Retries(w, gen, table, events, leases), gen, table, events, Unlimited)
         == LoadShard(w, gen, table, events, Unlimited)
    decreases |leases|
  {
    hide LoadShard;
    if leases != [] {
      LoadRestarts(w, gen, table, events, leases[0]);
      LoadConverges(LoadShard(w, gen, table, events, leases[0]).world, gen, table, events, leases[1..]);
    }
  }

  lemma PromoteRestarts(w: World, gen: string, proof: Proof, lease: Lease)
    ensures var call := Promote(w, gen, proof, lease);
            && (!call.Admitted? ==> call.world == w)
            && (call.Admitted? ==>
                  && call == Promote(w, gen, proof, Unlimited)
                  && call.world.registry.shards == w.registry.shards && call.world.registry.proofs == w.registry.proofs
                  && call.world.tables == w.tables && call.proof == proof
                  && Promote(call.world, gen, proof, Unlimited)
                      == Refused(call.world, Control(CBG014_ILLEGAL_TRANSITION)))
  {
  }

  /**
  Admission converges until it succeeds: cut short or refused, a complete call gives
  what it would have given first.  Called again after success it is refused.
  */
  lemma AdmitConverges(w: World, gen: string, digests: map<string, seq<Row>>, lease: Lease)
    ensures var call := Admit(w, gen, digests, lease);
            && (!call.Admitted? ==> Admit(call.world, gen, digests, Unlimited) == Admit(w, gen, digests, Unlimited))
            && (call.Admitted? ==>
                  && call == Admit(w, gen, digests, Unlimited)
                  && Admit(call.world, gen, digests, Unlimited)
                      == Refused(call.world, Control(CBG014_ILLEGAL_TRANSITION)))
  {
    hide Logical, Promote;
    if CompleteShards(w.registry, gen) && TargetFault(w, digests) == None {
      var proof := ProofOf(w, gen);
      match Write(w, RecordProof(w.registry, gen, proof), lease) {
        case Halt(_) =>
        case Continue(w1, lease1) =>
          PromoteRestarts(w1, gen, proof, lease1);
          ProofStays(w, w1, Promote(w1, gen, proof, lease1).world, gen, digests);
      }
    }
  }

  /** Once its proof is stored, asking again to store it finds it there. */
  lemma ProofStays(w: World, w1: World, w2: World, gen: string, digests: map<string, seq<Row>>)
    requires RecordProof(w.registry, gen, ProofOf(w, gen)) == Ok(w1.registry) && w1.tables == w.tables
    requires w2.tables == w.tables && w2.registry.shards == w1.registry.shards
    requires w2.registry.proofs == w1.registry.proofs
    ensures ProofOf(w2, gen) == ProofOf(w, gen) && TargetFault(w2, digests) == TargetFault(w, digests)
    ensures CompleteShards(w2.registry, gen) == CompleteShards(w.registry, gen)
    ensures RecordProof(w2.registry, gen, ProofOf(w2, gen)) == Ok(w2.registry)
  {
    hide Logical;
    assert ShardsOf(w2.registry, gen) == ShardsOf(w.registry, gen);
  }
}
