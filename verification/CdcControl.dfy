/**
The durable control store (cdc_control.py): checkpoints, claimed transactions,
table receipts and tombstones.  Each function describes one committed statement
block; it is the specification of the method of the same purpose.
*/
module CdcControl {
  import opened Common
  import opened Sorting
  import opened Events

  type TxId = (string, string)
  type ReceiptId = (string, string, string)

  datatype Code =
    | CB24C001_CHECKPOINT_CONFLICT
    | CB24C002_TRANSACTION_REPLAY_CONFLICT
    | CB24C004_RECEIPT_CONFLICT
    | CB24C005_RECEIPTS_INCOMPLETE
    | CB24C006_CHECKPOINT_MISSING
    | CB24C007_STALE_CHECKPOINT
    | CB24C008_FRONTIER_MISMATCH
    | KEY_ERROR
    | ASSERTION_ERROR

  datatype State = APPLYING | CHECKPOINTED

  datatype Checkpoint = Checkpoint(frontier: string, revision: nat, last: Option<(string, Digest)>)

  datatype Transaction = Transaction(digest: Digest, commitLsn: string, manifest: string,
                                     tables: seq<string>, state: State)

  datatype Receipt = Receipt(txDigest: Digest, input: Digest, token: Digest, snapshot: nat, logical: Digest)

  datatype Tombstone = Tombstone(tx: string, table: string, key: string, position: string,
                                 before: Digest, token: Digest)

  datatype Control = Control(checkpoints: map<string, Checkpoint>, transactions: map<TxId, Transaction>,
                             receipts: map<ReceiptId, Receipt>, tombstones: map<TxId, Tombstone>)

  datatype Result = Ok(control: Control) | Err(code: Code)

  const EMPTY := Control(map[], map[], map[], map[])

  function IdOf(plan: Plan): TxId { (plan.gen, plan.tx) }

  function InitializeCheckpoint(c: Control, gen: string, frontier: string): Result
  {
    if gen !in c.checkpoints then Ok(c.(checkpoints := c.checkpoints[gen := Checkpoint(frontier, 0, None)]))
    else if c.checkpoints[gen].frontier != frontier && c.checkpoints[gen].revision == 0
    then Err(CB24C001_CHECKPOINT_CONFLICT)
    else Ok(c)
  }

  function ClaimRow(plan: Plan): Transaction
  {
    Transaction(plan.digest, plan.commitLsn, plan.manifest, plan.tables, APPLYING)
  }

  function Claim(c: Control, plan: Plan): Result
  {
    if IdOf(plan) !in c.transactions then
      Ok(c.(transactions := c.transactions[IdOf(plan) := ClaimRow(plan)]))
    else if c.transactions[IdOf(plan)].digest != plan.digest then Err(CB24C002_TRANSACTION_REPLAY_CONFLICT)
    else Ok(c)
  }

  /** UNIQUE (generation_id, commit_token). */
  predicate TokenTaken(c: Control, gen: string, token: Digest)
  {
    exists id :: id in c.receipts && id.0 == gen && c.receipts[id].token == token
  }

  function RecordReceipt(c: Control, id: ReceiptId, receipt: Receipt): Result
  {
    if id in c.receipts then
      if c.receipts[id] != receipt then Err(CB24C004_RECEIPT_CONFLICT) else Ok(c)
    else if TokenTaken(c, id.0, receipt.token) then Err(CB24C004_RECEIPT_CONFLICT)
    else Ok(c.(receipts := c.receipts[id := receipt]))
  }

  function TombstoneRow(plan: Plan, e: Event, token: Digest): Tombstone
    requires e.change.Delete?
  {
    Tombstone(plan.tx, e.table, e.key, e.position, BeforeImage(e.table, e.change.before), token)
  }

  /** INSERT OR IGNORE of one row per delete, in event order. */
  function Bury(t: map<TxId, Tombstone>, plan: Plan, events: seq<Event>,
                tokens: map<string, Digest>): map<TxId, Tombstone>
    requires forall e :: e in events && e.change.Delete? ==> e.table in tokens
  {
    if events == [] then t
    else
      var e := events[|events| - 1];
      var prior := Bury(t, plan, events[..|events| - 1], tokens);
      if e.change.Delete? && (plan.gen, e.id) !in prior
      then prior[(plan.gen, e.id) := TombstoneRow(plan, e, tokens[e.table])]
      else prior
  }

  function RecordTombstones(c: Control, plan: Plan, tokens: map<string, Digest>): Result
  {
    if exists e :: e in plan.events && e.change.Delete? && e.table !in tokens then Err(KEY_ERROR)
    else Ok(c.(tombstones := Bury(c.tombstones, plan, plan.events, tokens)))
  }

  /** The tables that have a receipt for the transaction. */
  function ReceiptTables(c: Control, id: TxId): set<string>
  {
    set r | r in c.receipts && (r.0, r.1) == id :: r.2
  }

  function Finalized(c: Control, plan: Plan): Control
    requires plan.gen in c.checkpoints && IdOf(plan) in c.transactions
  {
    var cp := c.checkpoints[plan.gen];
    c.(checkpoints := c.checkpoints[plan.gen := Checkpoint(plan.commitLsn, cp.revision + 1,
                                                           Some((plan.tx, plan.digest)))],
       transactions := c.transactions[IdOf(plan) := c.transactions[IdOf(plan)].(state := CHECKPOINTED)])
  }

  /** Compare-and-swap of the checkpoint, last of all. */
  function Finalize(c: Control, plan: Plan, expected: nat): Result
  {
    if IdOf(plan) !in c.transactions then Err(ASSERTION_ERROR)
    else if c.transactions[IdOf(plan)].state.CHECKPOINTED? then
      if plan.gen !in c.checkpoints then Err(ASSERTION_ERROR) else Ok(c)
    else if !Lists(plan.tables, ReceiptTables(c, IdOf(plan))) then Err(CB24C005_RECEIPTS_INCOMPLETE)
    else if plan.gen !in c.checkpoints then Err(CB24C006_CHECKPOINT_MISSING)
    else if c.checkpoints[plan.gen].revision != expected then Err(CB24C007_STALE_CHECKPOINT)
    else if c.checkpoints[plan.gen].frontier != plan.previousFrontier then Err(CB24C008_FRONTIER_MISMATCH)
    else Ok(Finalized(c, plan))
  }

  /** The digest of the transaction's receipts, in table order. */
  function Outcome(receipts: map<ReceiptId, Receipt>, recovered: map<ReceiptId, bool>, id: TxId,
                   tables: seq<string>): Digest
    requires recovered.Keys == receipts.Keys
    requires forall name :: name in tables ==> (id.0, id.1, name) in receipts
  {
    ReceiptSet(tables,
               seq(|tables|, i requires 0 <= i < |tables| => receipts[(id.0, id.1, tables[i])].token),
               seq(|tables|, i requires 0 <= i < |tables| => receipts[(id.0, id.1, tables[i])].logical),
               seq(|tables|, i requires 0 <= i < |tables| => recovered[(id.0, id.1, tables[i])]))
  }

  /** cdc_control.py's `CDCControlStore`. */
  class Store {
    var checkpoints: map<string, Checkpoint>
    var transactions: map<TxId, Transaction>
    var receipts: map<ReceiptId, Receipt>
    var recovered: map<ReceiptId, bool>
    var tombstones: map<TxId, Tombstone>
    var outcomes: map<TxId, Digest>

    ghost function Value(): Control
      reads this
    {
      Control(checkpoints, transactions, receipts, tombstones)
    }

    ghost predicate Valid()
      reads this
    {
      && recovered.Keys == receipts.Keys
      && outcomes.Keys == set id | id in transactions && transactions[id].state.CHECKPOINTED?
    }

    constructor ()
      ensures Valid() && Value() == EMPTY
    {
      checkpoints, transactions, receipts, recovered, tombstones, outcomes := map[], map[], map[], map[], map[], map[];
    }

    method Initialize(gen: string, frontier: string) returns (r: Option<Code>)
      requires Valid()
      modifies this
      ensures Valid() && recovered == old(recovered) && outcomes == old(outcomes)
      ensures match InitializeCheckpoint(old(Value()), gen, frontier)
              case Ok(c) => r == None && Value() == c
              case Err(code) => r == Some(code) && Value() == old(Value())
    {
      if gen !in checkpoints {
        checkpoints := checkpoints[gen := Checkpoint(frontier, 0, None)];
      }
      var found := checkpoints[gen];
      r := if found.frontier != frontier && found.revision == 0 then Some(CB24C001_CHECKPOINT_CONFLICT) else None;
    }

    method ClaimTransaction(plan: Plan) returns (r: Option<Code>)
      requires Valid()
      modifies this
      ensures Valid() && recovered == old(recovered) && outcomes == old(outcomes)
      ensures match Claim(old(Value()), plan)
              case Ok(c) => r == None && Value() == c
              case Err(code) => r == Some(code) && Value() == old(Value())
    {
      if IdOf(plan) in transactions {
        return if transactions[IdOf(plan)].digest != plan.digest
          then Some(CB24C002_TRANSACTION_REPLAY_CONFLICT) else None;
      }
      transactions := transactions[IdOf(plan) := ClaimRow(plan)];
      r := None;
    }

    method Record(id: ReceiptId, receipt: Receipt, wasRecovered: bool) returns (r: Option<Code>)
      requires Valid()
      modifies this
      ensures Valid() && outcomes == old(outcomes)
      ensures recovered == if id in old(receipts) || r.Some? then old(recovered) else old(recovered)[id := wasRecovered]
      ensures match RecordReceipt(old(Value()), id, receipt)
              case Ok(c) => r == None && Value() == c
              case Err(code) => r == Some(code) && Value() == old(Value())
    {
      if id in receipts {
        return if receipts[id] != receipt then Some(CB24C004_RECEIPT_CONFLICT) else None;
      }
      if exists other :: other in receipts && other.0 == id.0 && receipts[other].token == receipt.token {
        return Some(CB24C004_RECEIPT_CONFLICT);
      }
      receipts, recovered := receipts[id := receipt], recovered[id := wasRecovered];
      r := None;
    }

    method BuryDeletes(plan: Plan, tokens: map<string, Digest>) returns (r: Option<Code>)
      requires Valid()
      modifies this
      ensures Valid() && recovered == old(recovered) && outcomes == old(outcomes)
      ensures match RecordTombstones(old(Value()), plan, tokens)
              case Ok(c) => r == None && Value() == c
              case Err(code) => r == Some(code) && Value() == old(Value())
    {
      if exists e :: e in plan.events && e.change.Delete? && e.table !in tokens {
        return Some(KEY_ERROR);
      }
      var i := 0;
      while i < |plan.events|
        invariant 0 <= i <= |plan.events|
        invariant tombstones == Bury(old(tombstones), plan, plan.events[..i], tokens)
        invariant checkpoints == old(checkpoints) && transactions == old(transactions) && receipts == old(receipts)
        invariant recovered == old(recovered) && outcomes == old(outcomes)
      {
        var e := plan.events[i];
        assert plan.events[..i + 1][..i] == plan.events[..i];
        if e.change.Delete? && (plan.gen, e.id) !in tombstones {
          tombstones := tombstones[(plan.gen, e.id) := TombstoneRow(plan, e, tokens[e.table])];
        }
        i := i + 1;
      }
      assert plan.events[..i] == plan.events;
      r := None;
    }

    method FinalizeTransaction(plan: Plan, expected: nat) returns (r: Option<Code>, idempotent: bool)
      requires Valid()
      modifies this
      ensures Valid() && recovered == old(recovered)
      ensures match Finalize(old(Value()), plan, expected)
              case Ok(c) =>
                && r == None && Value() == c
                && idempotent == (old(transactions)[IdOf(plan)].state == CHECKPOINTED)
                && (idempotent ==> outcomes == old(outcomes))
                && (!idempotent ==>
                      && (forall name :: name in plan.tables ==> (plan.gen, plan.tx, name) in receipts)
                      && outcomes == old(outcomes)[IdOf(plan) := Outcome(receipts, recovered, IdOf(plan), plan.tables)])
              case Err(code) => r == Some(code) && Value() == old(Value()) && outcomes == old(outcomes)
    {
      var id := IdOf(plan);
      idempotent := false;
      if id !in transactions {
        return Some(ASSERTION_ERROR), false;
      }
      if transactions[id].state == CHECKPOINTED {
        return if plan.gen !in checkpoints then Some(ASSERTION_ERROR) else None, true;
      }
      var found := set r | r in receipts && (r.0, r.1) == id :: r.2;
      assert found == ReceiptTables(Value(), id);
      if !Lists(plan.tables, found) {
        return Some(CB24C005_RECEIPTS_INCOMPLETE), false;
      }
      if plan.gen !in checkpoints {
        return Some(CB24C006_CHECKPOINT_MISSING), false;
      }
      if checkpoints[plan.gen].revision != expected {
        return Some(CB24C007_STALE_CHECKPOINT), false;
      }
      if checkpoints[plan.gen].frontier != plan.previousFrontier {
        return Some(CB24C008_FRONTIER_MISMATCH), false;
      }
      forall name | name in plan.tables ensures (plan.gen, plan.tx, name) in receipts {
        assert name in Elements(plan.tables);
      }
      var outcome := Outcome(receipts, recovered, id, plan.tables);
      checkpoints := checkpoints[plan.gen := Checkpoint(plan.commitLsn, checkpoints[plan.gen].revision + 1,
                                                        Some((plan.tx, plan.digest)))];
      transactions := transactions[id := transactions[id].(state := CHECKPOINTED)];
      outcomes := outcomes[id := outcome];
      r := None;
    }
  }
}
