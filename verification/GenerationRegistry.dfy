/**
The generation registry (generation_registry.py): generations, snapshot shards, target
commits, transitions and admission proofs.  Every function describes one call that
commits at most one transaction; a digest of a body is the body itself.
*/
module GenerationRegistry {
  import opened Common
  import opened Events

  datatype GenerationState = CREATED | SNAPSHOT_LOADING | CDC_APPLYING | ACTIVE | PUBLISHED | ROLLED_BACK | REJECTED
      | RETIRED

  datatype ShardState = CLAIMED | STAGED | COMMITTED | RECONCILED

  /** What a registration says; none of it may change. */
  datatype Record = Record(gen: string, workload: string, run: string, frontier: string, schemaSet: string,
                           profile: string,
                           warehouse: string, namespace: string, tableMap: map<string, string>)

  datatype Generation = Generation(record: Record, state: GenerationState, revision: nat)

  datatype InputDigest = InputDigest(gen: string, table: string, ids: seq<string>, payloads: seq<string>,
                                     frontier: string)

  datatype Token = Token(gen: string, shard: string, input: InputDigest)

  /** What a claim says; none of it may change. */
  datatype Claim = Claim(gen: string, shard: string, table: string, input: InputDigest, rowCount: nat,
                         idempotency: Token, token: Token)

  datatype Shard = Shard(claim: Claim, state: ShardState)

  /** A snapshot of a target table, as its summary describes it. */
  datatype Summary = Summary(token: Token, input: InputDigest, shard: string, rowCount: nat, gen: string,
                             frontier: string)

  datatype Commit = Commit(gen: string, shard: string, token: Token, table: string, snapshot: nat, input: InputDigest,
                           rowCount: nat, logical: seq<Row>, summary: Summary, reconciliation: string)

  datatype TableResult = TableResult(rowCount: nat, state: seq<Row>, snapshots: nat)

  datatype Proof = Proof(gen: string, frontier: string, results: map<string, TableResult>, postCdcApplied: int,
                         reconciled: bool, foreign: int, verdict: string)

  datatype Transition = Transition(gen: string, from: GenerationState, to: GenerationState, expected: nat,
                                   resulting: nat,
                                   decision: Option<Proof>)

  type ShardId = (string, string)

  datatype Registry = Registry(generations: map<string, Generation>, shards: map<ShardId, Shard>,
                               commits: map<(string, Token), Commit>, transitions: seq<Transition>,
                               proofs: map<string, Proof>)

  datatype Code =
    | CBG001_INVALID_WORKLOAD_ID | CBG006_GENERATION_ID_MISMATCH | CBG008_TABLE_MAP | CBG009_GENERATION_REPLAY_CONFLICT
    | CBG010_PHYSICAL_OWNERSHIP_CONFLICT | CBG011_GENERATION_NOT_FOUND | CBG013_STALE_REVISION
    | CBG014_ILLEGAL_TRANSITION | CBG015_GENERATION_NOT_WRITABLE | CBG016_SHARD_REPLAY_CONFLICT
    | CBG017_SHARD_NOT_FOUND | CBG019_ILLEGAL_SHARD_TRANSITION | CBG020_COMMIT_REPLAY_CONFLICT
    | CBG021_COMMIT_NOT_FOUND | CBG022_ADMISSION_FAILED | CBG023_ADMISSION_REPLAY_CONFLICT
    | CBG025_ADMISSION_PROOF_REQUIRED | CBG026_INCOMPLETE_ADMISSION_PROOF | INTEGRITY_ERROR

  datatype Result<+T> = Ok(value: T) | Err(code: Code)

  const EMPTY := Registry(map[], map[], map[], [], map[])

  const FRONTIER := "0/194FB20"

  const COUNTS := map["order_items" := 66, "orders" := 6]

  predicate IsHex64(s: string)
  {
    |s| == 64 && forall i :: 0 <= i < |s| ==> '0' <= s[i] <= '9' || 'a' <= s[i] <= 'f'
  }

  function RegisterGeneration(r: Registry, record: Record): Result<Registry>
  {
    if !IsHex64(record.workload) then Err(CBG001_INVALID_WORKLOAD_ID)
    else if record.gen != "generation-" + record.workload[..24] then Err(CBG006_GENERATION_ID_MISMATCH)
    else if record.tableMap.Keys != {"order_items", "orders"} then Err(CBG008_TABLE_MAP)
    else if record.gen in r.generations then
      if r.generations[record.gen].record != record then Err(CBG009_GENERATION_REPLAY_CONFLICT) else Ok(r)
    else if exists g :: g in r.generations &&
                        (r.generations[g].record.warehouse == record.warehouse ||
                         r.generations[g].record.namespace == record.namespace)
    then Err(CBG010_PHYSICAL_OWNERSHIP_CONFLICT)
    else Ok(r.(generations := r.generations[record.gen := Generation(record, CREATED, 0)]))
  }

  predicate AllowedTransition(from: GenerationState, to: GenerationState)
  {
    (from == CREATED && to == SNAPSHOT_LOADING) || (from == SNAPSHOT_LOADING && to == CDC_APPLYING)
  }

  /** `decision` is the admission proof that the decision names by its digest, if any. */
  function Move(r: Registry, gen: string, expected: int, to: GenerationState, decision: Option<Proof>): Result<Registry>
  {
    if gen !in r.generations then Err(CBG011_GENERATION_NOT_FOUND)
    else
      var g := r.generations[gen];
      if g.state == to && g.revision == expected + 1 then Ok(r)
      else if g.revision != expected then Err(CBG013_STALE_REVISION)
      else if !AllowedTransition(g.state, to) then Err(CBG014_ILLEGAL_TRANSITION)
      else if to == CDC_APPLYING &&
              (gen !in r.proofs || r.proofs[gen].verdict != "PASS" || decision != Some(r.proofs[gen]))
      then Err(CBG025_ADMISSION_PROOF_REQUIRED)
      else Ok(r.(generations := r.generations[gen := g.(state := to, revision := g.revision + 1)],
                 transitions := r.transitions + [Transition(gen, g.state, to, g.revision, g.revision + 1, decision)]))
  }

  /** May the generation take this claim, and is it new? */
  function ClaimCheck(r: Registry, c: Claim): Result<bool>
  {
    if c.gen !in r.generations then Err(CBG011_GENERATION_NOT_FOUND)
    else if r.generations[c.gen].state != SNAPSHOT_LOADING then Err(CBG015_GENERATION_NOT_WRITABLE)
    else if (c.gen, c.shard) in r.shards then
      if r.shards[(c.gen, c.shard)].claim != c then Err(CBG016_SHARD_REPLAY_CONFLICT) else Ok(false)
    else if exists id :: id in r.shards && id.0 == c.gen &&
                         (r.shards[id].claim.idempotency == c.idempotency || r.shards[id].claim.token == c.token)
    then Err(INTEGRITY_ERROR)
    else Ok(true)
  }

  function ClaimShard(r: Registry, c: Claim): Result<Registry>
  {
    match ClaimCheck(r, c)
    case Err(code) => Err(code)
    case Ok(isNew) => Ok(if isNew then r.(shards := r.shards[(c.gen, c.shard) := Shard(c, CLAIMED)]) else r)
  }

  predicate AllowedShard(from: ShardState, to: ShardState)
  {
    || (from == CLAIMED && (to == STAGED || to == COMMITTED))
    || (from == STAGED && to == COMMITTED)
    || (from == COMMITTED && to == RECONCILED)
  }

  function MarkShard(r: Registry, id: ShardId, to: ShardState): Result<Registry>
  {
    if id !in r.shards then Err(CBG017_SHARD_NOT_FOUND)
    else if r.shards[id].state == to then Ok(r)
    else if !AllowedShard(r.shards[id].state, to) then Err(CBG019_ILLEGAL_SHARD_TRANSITION)
    else Ok(r.(shards := r.shards[id := r.shards[id].(state := to)]))
  }

  function RecordCommit(r: Registry, c: Commit): Result<Registry>
  {
    if (c.gen, c.token) in r.commits then
      if r.commits[(c.gen, c.token)] != c then Err(CBG020_COMMIT_REPLAY_CONFLICT) else Ok(r)
    else if (c.gen, c.shard) !in r.shards then Err(INTEGRITY_ERROR)
    else Ok(r.(commits := r.commits[(c.gen, c.token) := c]))
  }

  function ShardsOf(r: Registry, gen: string): set<ShardId> { set id | id in r.shards && id.0 == gen }

  /** Two shards, both reconciled. */
  predicate CompleteShards(r: Registry, gen: string)
  {
    |ShardsOf(r, gen)| == 2 && forall id :: id in ShardsOf(r, gen) ==> r.shards[id].state == RECONCILED
  }

  function CountIn(p: Proof, table: string): Option<nat>
  {
    if table in p.results then Some(p.results[table].rowCount) else None
  }

  predicate CompleteProof(r: Registry, gen: string, p: Proof)
  {
    && p.gen == gen && p.frontier == FRONTIER && p.postCdcApplied == 0 && p.reconciled && p.foreign == 0
    && CountIn(p, "order_items") == Some(66) && CountIn(p, "orders") == Some(6)
    && CompleteShards(r, gen)
  }

  function RecordProof(r: Registry, gen: string, p: Proof): Result<Registry>
  {
    if p.verdict != "PASS" then Err(CBG022_ADMISSION_FAILED)
    else if !CompleteProof(r, gen, p) then Err(CBG026_INCOMPLETE_ADMISSION_PROOF)
    else if gen in r.proofs then
      if r.proofs[gen] != p then Err(CBG023_ADMISSION_REPLAY_CONFLICT) else Ok(r)
    else if gen !in r.generations then Err(INTEGRITY_ERROR)
    else Ok(r.(proofs := r.proofs[gen := p]))
  }

  /** generation_registry.py's `GenerationRegistry`. */
  class Store {
    var generations: map<string, Generation>
    var shards: map<ShardId, Shard>
    var commits: map<(string, Token), Commit>
    var transitions: seq<Transition>
    var proofs: map<string, Proof>

    ghost function Value(): Registry
      reads this
    {
      Registry(generations, shards, commits, transitions, proofs)
    }

    constructor ()
      ensures Value() == EMPTY
    {
      generations, shards, commits, transitions, proofs := map[], map[], map[], [], map[];
    }

    method Read() returns (r: Registry)
      ensures r == Value()
    {
      r := Registry(generations, shards, commits, transitions, proofs);
    }

    method Register(record: Record) returns (code: Option<Code>)
      modifies this
      ensures match RegisterGeneration(old(Value()), record)
              case Ok(r) => code == None && Value() == r
              case Err(c) => code == Some(c) && Value() == old(Value())
    {
      if !IsHex64(record.workload) {
        return Some(CBG001_INVALID_WORKLOAD_ID);
      }
      if record.gen != "generation-" + record.workload[..24] {
        return Some(CBG006_GENERATION_ID_MISMATCH);
      }
      if record.tableMap.Keys != {"order_items", "orders"} {
        return Some(CBG008_TABLE_MAP);
      }
      if record.gen in generations {
        return if generations[record.gen].record != record then Some(CBG009_GENERATION_REPLAY_CONFLICT) else None;
      }
      if exists g :: g in generations && (generations[g].record.warehouse == record.warehouse ||
                                          generations[g].record.namespace == record.namespace) {
        return Some(CBG010_PHYSICAL_OWNERSHIP_CONFLICT);
      }
      generations := generations[record.gen := Generation(record, CREATED, 0)];
      code := None;
    }

    method TransitionTo(gen: string, expected: int, to: GenerationState, decision: Option<Proof>)
      returns (code: Option<Code>)
      modifies this
      ensures match Move(old(Value()), gen, expected, to, decision)
              case Ok(r) => code == None && Value() == r
              case Err(c) => code == Some(c) && Value() == old(Value())
    {
      if gen !in generations {
        return Some(CBG011_GENERATION_NOT_FOUND);
      }
      var g := generations[gen];
      if g.state == to && g.revision == expected + 1 {
        return None;
      }
      if g.revision != expected {
        return Some(CBG013_STALE_REVISION);
      }
      if !AllowedTransition(g.state, to) {
        return Some(CBG014_ILLEGAL_TRANSITION);
      }
      if to == CDC_APPLYING && (gen !in proofs || proofs[gen].verdict != "PASS" || decision != Some(proofs[gen])) {
        return Some(CBG025_ADMISSION_PROOF_REQUIRED);
      }
      generations := generations[gen := g.(state := to, revision := g.revision + 1)];
      transitions := transitions + [Transition(gen, g.state, to, g.revision, g.revision + 1, decision)];
      code := None;
    }

    method TakeShard(c: Claim) returns (code: Option<Code>)
      modifies this
      ensures match ClaimShard(old(Value()), c)
              case Ok(r) => code == None && Value() == r
              case Err(fault) => code == Some(fault) && Value() == old(Value())
    {
      if c.gen !in generations {
        return Some(CBG011_GENERATION_NOT_FOUND);
      }
      if generations[c.gen].state != SNAPSHOT_LOADING {
        return Some(CBG015_GENERATION_NOT_WRITABLE);
      }
      if (c.gen, c.shard) in shards {
        return if shards[(c.gen, c.shard)].claim != c then Some(CBG016_SHARD_REPLAY_CONFLICT) else None;
      }
      if exists id :: id in shards && id.0 == c.gen && (shards[id].claim.idempotency == c.idempotency ||
                                                        shards[id].claim.token == c.token) {
        return Some(INTEGRITY_ERROR);
      }
      shards := shards[(c.gen, c.shard) := Shard(c, CLAIMED)];
      code := None;
    }

    method MarkShardState(id: ShardId, to: ShardState) returns (code: Option<Code>)
      modifies this
      ensures match MarkShard(old(Value()), id, to)
              case Ok(r) => code == None && Value() == r
              case Err(c) => code == Some(c) && Value() == old(Value())
    {
      if id !in shards {
        return Some(CBG017_SHARD_NOT_FOUND);
      }
      if shards[id].state == to {
        return None;
      }
      if !AllowedShard(shards[id].state, to) {
        return Some(CBG019_ILLEGAL_SHARD_TRANSITION);
      }
      shards := shards[id := shards[id].(state := to)];
      code := None;
    }

    method RecordTargetCommit(c: Commit) returns (code: Option<Code>)
      modifies this
      ensures match RecordCommit(old(Value()), c)
              case Ok(r) => code == None && Value() == r
              case Err(fault) => code == Some(fault) && Value() == old(Value())
    {
      if (c.gen, c.token) in commits {
        return if commits[(c.gen, c.token)] != c then Some(CBG020_COMMIT_REPLAY_CONFLICT) else None;
      }
      if (c.gen, c.shard) !in shards {
        return Some(INTEGRITY_ERROR);
      }
      commits := commits[(c.gen, c.token) := c];
      code := None;
    }

    method RecordAdmissionProof(gen: string, p: Proof) returns (code: Option<Code>)
      modifies this
      ensures match RecordProof(old(Value()), gen, p)
              case Ok(r) => code == None && Value() == r
              case Err(c) => code == Some(c) && Value() == old(Value())
    {
      if p.verdict != "PASS" {
        return Some(CBG022_ADMISSION_FAILED);
      }
      var own := set id | id in shards && id.0 == gen;
      if !(&& p.gen == gen && p.frontier == FRONTIER && p.postCdcApplied == 0 && p.reconciled && p.foreign == 0
           && CountIn(p, "order_items") == Some(66) && CountIn(p, "orders") == Some(6)
           && |own| == 2 && forall id :: id in own ==> shards[id].state == RECONCILED)
      {
        return Some(CBG026_INCOMPLETE_ADMISSION_PROOF);
      }
      if gen in proofs {
        return if proofs[gen] != p then Some(CBG023_ADMISSION_REPLAY_CONFLICT) else None;
      }
      if gen !in generations {
        return Some(INTEGRITY_ERROR);
      }
      proofs := proofs[gen := p];
      code := None;
    }
  }
}
