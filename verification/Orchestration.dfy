/**
The orchestrator (publication_orchestrator.py), its stored runs
(publication.py) and the consumer resolver (consumer.py).  A lease says how many
of a call's durable writes happen before the process is killed.
*/
module Orchestration {
  import opened Common
  import opened Publication

  datatype RunState = PLANNED | ELIGIBLE | PUBLISHING | VERIFYING | ACTIVE | INCIDENT | RECOVERING
                    | SOURCE_FALLBACK_VERIFIED | ROLLBACK_VERIFIED

  datatype Observation = Observation(snapshot: string, rows: int)

  /** `read_table`: what a consumer reads of a bound table, unless reading fails. */
  type Reader = (string, TableBinding) -> Option<Observation>

  datatype Verification = Verification(pin: Pin, observed: map<string, Observation>)

  datatype Detail = Empty | ForGeneration(gen: string) | Expecting(revision: int) | Receipted(receipt: Receipt)
                  | Verified(verification: Verification) | Failure(code: Fault) | Drill
                  | Authorized(authorization: string)

  datatype Run = Run(product: string, state: RunState, revision: nat, attempt: Option<string>, detail: Detail)

  datatype System = System(store: Store, runs: map<string, Run>)

  datatype Fault =
    | InStore(code: Code)
    | CB27C004_TABLE_MAP_INCOMPLETE
    | CB27C005_SNAPSHOT_MISMATCH
    | CB27C006_ROW_COUNT_MISMATCH
    | CB27O001_STALE_RUN_REVISION
    | CB27O002_ILLEGAL_RUN_TRANSITION
    | CB27O003_RUN_UNKNOWN
    | READ_FAILED

  datatype Answer<+T> = Good(value: T) | Bad(fault: Fault)

  predicate Allowed(from: RunState, to: RunState)
  {
    (from, to) in {(PLANNED, ELIGIBLE), (ELIGIBLE, PUBLISHING), (PUBLISHING, VERIFYING), (VERIFYING, ACTIVE),
                   (VERIFYING, INCIDENT), (ACTIVE, INCIDENT), (INCIDENT, RECOVERING),
                   (RECOVERING, SOURCE_FALLBACK_VERIFIED), (RECOVERING, ROLLBACK_VERIFIED)}
  }

  function StartRun(runs: map<string, Run>, run: string, product: string): map<string, Run>
  {
    if run in runs then runs else runs[run := Run(product, PLANNED, 0, None, Empty)]
  }

  function TransitionRun(runs: map<string, Run>, run: string, expected: nat, to: RunState,
                         attempt: Option<string>, detail: Detail): Answer<map<string, Run>>
  {
    if run !in runs then Bad(CB27O003_RUN_UNKNOWN)
    else if runs[run].revision != expected then Bad(CB27O001_STALE_RUN_REVISION)
    else if !Allowed(runs[run].state, to) then Bad(CB27O002_ILLEGAL_RUN_TRANSITION)
    else Good(runs[run := runs[run].(state := to, revision := expected + 1, attempt := attempt, detail := detail)])
  }

  /** Leave `from` for `to` if the run is in `from`, with the revision just read. */
  function Advance(runs: map<string, Run>, run: string, from: RunState, to: RunState,
                   attempt: Option<string>, detail: Detail): (r: map<string, Run>)
    requires run in runs && Allowed(from, to)
    ensures r.Keys == runs.Keys
  {
    if runs[run].state != from then runs
    else TransitionRun(runs, run, runs[run].revision, to, attempt, detail).value
  }

  datatype Ack = Acknowledged(receipt: Receipt) | Ambiguous | Refused(code: Code)

  /** A store attempt whose acknowledgement may be lost after the commit. */
  function Attempt(s: Store, attempt: string, payload: Payload, lose: bool): (Store, Ack)
  {
    match Act(s, attempt, payload)
    case Err(code) => (s, Refused(code))
    case Ok(m) => (m.store, if lose && attempt !in s.attempts then Ambiguous else Acknowledged(m.receipt))
  }

  /** The receipt of an attempt, read back from the ledger when the answer was lost. */
  function AttemptAndReconcile(s: Store, attempt: string, payload: Payload, lose: bool): (Store, Answer<Receipt>)
  {
    var (s', ack) := Attempt(s, attempt, payload, lose);
    match ack
    case Acknowledged(receipt) => (s', Good(receipt))
    case Refused(code) => (s', Bad(InStore(code)))
    case Ambiguous =>
      match Reconcile(s', attempt)
      case Ok(receipt) => (s', Good(receipt))
      case Err(code) => (s', Bad(InStore(code)))
  }

  /** Check one table against its binding. */
  function ReadTable(map_: TableMap, table: string, read: Reader): Answer<Observation>
    requires table in map_
  {
    match read(table, map_[table])
    case None => Bad(READ_FAILED)
    case Some(seen) =>
      if seen.snapshot != map_[table].snapshot then Bad(CB27C005_SNAPSHOT_MISMATCH)
      else if seen.rows != map_[table].rows then Bad(CB27C006_ROW_COUNT_MISMATCH)
      else Good(seen)
  }

  /** Tables are read in name order. */
  const TABLES := ["order_items", "orders"]

  function ReadTables(map_: TableMap, tables: seq<string>, read: Reader): Answer<map<string, Observation>>
    requires forall t :: t in tables ==> t in map_
  {
    if tables == [] then Good(map[])
    else
      var front, last := tables[..|tables| - 1], tables[|tables| - 1];
      match ReadTables(map_, front, read)
      case Bad(fault) => Bad(fault)
      case Good(seen) =>
        match ReadTable(map_, last, read)
        case Bad(fault) => Bad(fault)
        case Good(o) => Good(seen[last := o])
  }

  /** Verify a pin by reading what it names. */
  function VerifyPin(pin: Pin, read: Reader): Answer<Verification>
  {
    if pin.route.SOURCE_FALLBACK? then Good(Verification(pin, map[]))
    else if pin.tableMap.None? || pin.tableMap.value.Keys != {"order_items", "orders"}
    then Bad(CB27C004_TABLE_MAP_INCOMPLETE)
    else match ReadTables(pin.tableMap.value, TABLES, read)
      case Bad(fault) => Bad(fault)
      case Good(seen) => Good(Verification(pin, seen))
  }

  /** `resolve_and_verify`: the pin is stored first, and stays when verification fails. */
  function Resolve(s: Store, product: string, pin: string, read: Reader): (Store, Answer<Verification>)
  {
    match PinAs(s, product, pin)
    case Err(code) => (s, Bad(InStore(code)))
    case Ok((s', body)) => (s', VerifyPin(body, read))
  }

  datatype Request = Request(run: string, product: string, gen: string, expected: int, attempt: string,
                             authorization: string, pin: string)

  datatype Outcome = Finished(receipt: Receipt, verification: Verification, run: Run) | Raised(fault: Fault) | Dead

  function PublishPayload(q: Request): Payload { Publish(q.product, q.gen, q.expected, q.authorization) }

  /** A consumer's view is verified, and the run closed accordingly. */
  function Close(sys: System, q: Request, receipt: Receipt, read: Reader, lease: Lease): (System, Outcome)
    requires q.run in sys.runs
  {
    if lease.Spent() then (sys, Dead)
    else
      var (store, answer) := Resolve(sys.store, q.product, q.pin, read);
      var s1 := sys.(store := store);
      if lease.Next().Spent() then (s1, Dead)
      else match answer
        case Bad(fault) =>
          (s1.(runs := Advance(s1.runs, q.run, VERIFYING, INCIDENT, Some(q.attempt), Failure(fault))), Raised(fault))
        case Good(v) =>
          var s2 := s1.(runs := Advance(s1.runs, q.run, VERIFYING, ACTIVE, Some(q.attempt), Verified(v)));
          (s2, Finished(receipt, v, s2.runs[q.run]))
  }

  /** After the receipt: record it in the run, then verify. */
  function Verify(sys: System, q: Request, receipt: Receipt, read: Reader, lease: Lease): (System, Outcome)
    requires q.run in sys.runs
  {
    if lease.Spent() then (sys, Dead)
    else
      var runs := Advance(sys.runs, q.run, PUBLISHING, VERIFYING, Some(q.attempt), Receipted(receipt));
      Close(sys.(runs := runs), q, receipt, read, lease.Next())
  }

  /** The run is claimed and on its way to publication. */
  function Prepare(sys: System, q: Request, steps: nat): (r: System)
    ensures steps > 0 ==> q.run in r.runs
    ensures r.store == sys.store
  {
    var s1 := sys.(runs := StartRun(sys.runs, q.run, q.product));
    var s2 := s1.(runs := Advance(s1.runs, q.run, PLANNED, ELIGIBLE, None, ForGeneration(q.gen)));
    var s3 := s2.(runs := Advance(s2.runs, q.run, ELIGIBLE, PUBLISHING, Some(q.attempt), Expecting(q.expected)));
    if steps == 0 then sys else if steps == 1 then s1 else if steps == 2 then s2 else s3
  }

  /** `publish_and_verify`, with or without the publication's acknowledgement. */
  function PublishAndVerify(sys: System, q: Request, read: Reader, lose: bool, lease: Lease): (System, Outcome)
  {
    if lease.Writes? && lease.n <= 3 then (Prepare(sys, q, lease.n), Dead)
    else
      var s3 := Prepare(sys, q, 3);
      var (store, answer) := AttemptAndReconcile(s3.store, q.attempt, PublishPayload(q), lose);
      match answer
      case Bad(fault) => (s3.(store := store), Raised(fault))
      case Good(receipt) => Verify(s3.(store := store), q, receipt, read, lease.Next().Next().Next().Next())
  }

  /** The consumer of the fallback path reads nothing. */
  function NoReader(): Reader { (_, _) => Some(Observation("None", -1)) }

  function FallbackPayload(q: Request): Payload { Fallback(q.product, q.expected, q.authorization) }

  /** An active run becomes an incident, and recovery begins. */
  function Recover(sys: System, q: Request, steps: nat): (r: System)
    requires q.run in sys.runs
    ensures q.run in r.runs && r.store == sys.store
  {
    var s1 := sys.(runs := Advance(sys.runs, q.run, ACTIVE, INCIDENT, Some(q.attempt), Drill));
    var s2 := s1.(runs := Advance(s1.runs, q.run, INCIDENT, RECOVERING, Some(q.attempt), Authorized(q.authorization)));
    if steps == 0 then sys else if steps == 1 then s1 else s2
  }

  /** After the fallback's receipt: verify the source route, and close the run. */
  function VerifySource(sys: System, q: Request, receipt: Receipt, lease: Lease): (System, Outcome)
    requires q.run in sys.runs
  {
    if lease.Spent() then (sys, Dead)
    else
      var (store, found) := Resolve(sys.store, q.product, q.attempt + ":source-pin", NoReader());
      var s1 := sys.(store := store);
      match found
      case Bad(fault) => (s1, Raised(fault))
      case Good(v) =>
        if lease.Next().Spent() then (s1, Dead)
        else
          var s2 := s1.(runs := Advance(s1.runs, q.run, RECOVERING, SOURCE_FALLBACK_VERIFIED, Some(q.attempt),
                                        Receipted(receipt)));
          (s2, Finished(receipt, v, s2.runs[q.run]))
  }

  /** `fallback`, opening an incident first when the run is active. */
  function FallbackAndVerify(sys: System, q: Request, lose: bool, lease: Lease): (System, Outcome)
  {
    if q.run !in sys.runs then (sys, Raised(CB27O003_RUN_UNKNOWN))
    else if lease.Writes? && lease.n <= 2 then (Recover(sys, q, lease.n), Dead)
    else
      var s2 := Recover(sys, q, 2);
      var (store, answer) := AttemptAndReconcile(s2.store, q.attempt, FallbackPayload(q), lose);
      match answer
      case Bad(fault) => (s2.(store := store), Raised(fault))
      case Good(receipt) => VerifySource(s2.(store := store), q, receipt, lease.Next().Next().Next())
  }

  /** The orchestrator over its store and the stored runs. */
  class Orchestrator {
    const store: PublicationStore
    var runs: map<string, Run>

    ghost function Value(): System
      reads this, store
    {
      System(store.Value(), runs)
    }

    constructor (store: PublicationStore)
      ensures this.store == store && runs == map[]
    {
      this.store, this.runs := store, map[];
    }

    method Transition(run: string, expected: nat, to: RunState, attempt: Option<string>, detail: Detail)
      returns (fault: Option<Fault>)
      modifies this
      ensures match TransitionRun(old(runs), run, expected, to, attempt, detail)
              case Good(r) => fault == None && runs == r
              case Bad(f) => fault == Some(f) && runs == old(runs)
    {
      if run !in runs {
        return Some(CB27O003_RUN_UNKNOWN);
      }
      if runs[run].revision != expected {
        return Some(CB27O001_STALE_RUN_REVISION);
      }
      if !Allowed(runs[run].state, to) {
        return Some(CB27O002_ILLEGAL_RUN_TRANSITION);
      }
      runs := runs[run := runs[run].(state := to, revision := expected + 1, attempt := attempt, detail := detail)];
      fault := None;
    }

    method AdvanceRun(run: string, from: RunState, to: RunState, attempt: Option<string>, detail: Detail)
      requires run in runs && Allowed(from, to)
      modifies this
      ensures runs == Advance(old(runs), run, from, to, attempt, detail)
    {
      if runs[run].state == from {
        var _ := Transition(run, runs[run].revision, to, attempt, detail);
      }
    }

    method ResolveAndVerify(product: string, pin: string, read: Reader) returns (r: Answer<Verification>)
      modifies store
      ensures (store.Value(), r) == Resolve(old(store.Value()), product, pin, read)
    {
      var pinned := store.PinConsumer(product, pin);
      if pinned.Err? {
        return Bad(InStore(pinned.code));
      }
      var body := pinned.value;
      if body.route.SOURCE_FALLBACK? {
        return Good(Verification(body, map[]));
      }
      if body.tableMap.None? || body.tableMap.value.Keys != {"order_items", "orders"} {
        return Bad(CB27C004_TABLE_MAP_INCOMPLETE);
      }
      var tables := body.tableMap.value;
      var observed: map<string, Observation> := map[];
      var i := 0;
      while i < |TABLES|
        invariant 0 <= i <= |TABLES|
        invariant ReadTables(tables, TABLES[..i], read) == Good(observed)
      {
        assert TABLES[..i + 1][..i] == TABLES[..i] && TABLES[..i + 1][i] == TABLES[i];
        var seen := ReadTable(tables, TABLES[i], read);
        if seen.Bad? {
          ReadStops(tables, i, read);
          return Bad(seen.fault);
        }
        observed := observed[TABLES[i] := seen.value];
        i := i + 1;
      }
      assert TABLES[..i] == TABLES;
      r := Good(Verification(body, observed));
    }

    method PublishAndRecover(attempt: string, payload: Payload, lose: bool) returns (r: Answer<Receipt>)
      requires payload.Publish?
      modifies store
      ensures (store.Value(), r) == AttemptAndReconcile(old(store.Value()), attempt, payload, lose)
    {
      var known := attempt in store.attempts;
      var answer := store.PublishGeneration(attempt, payload);
      if answer.Err? {
        return Bad(InStore(answer.code));
      }
      if lose && !known {
        var read := store.ReconcileAttempt(attempt);
        return if read.Ok? then Good(read.value) else Bad(InStore(read.code));
      }
      r := Good(answer.value);
    }

    method FallBackAndRecover(attempt: string, payload: Payload, lose: bool) returns (r: Answer<Receipt>)
      requires payload.Fallback?
      modifies store
      ensures (store.Value(), r) == AttemptAndReconcile(old(store.Value()), attempt, payload, lose)
    {
      var known := attempt in store.attempts;
      var answer := store.FirstPublicationFallback(attempt, payload);
      if answer.Err? {
        return Bad(InStore(answer.code));
      }
      if lose && !known {
        var read := store.ReconcileAttempt(attempt);
        return if read.Ok? then Good(read.value) else Bad(InStore(read.code));
      }
      r := Good(answer.value);
    }

    method PublishAndVerifyRun(q: Request, read: Reader, lose: bool, lease: Lease) returns (r: Outcome)
      modifies this, store
      ensures (Value(), r) == PublishAndVerify(old(Value()), q, read, lose, lease)
    {
      hide AttemptAndReconcile, Verify;
      if lease.Spent() {
        return Dead;
      }
      var left := lease.Next();
      runs := StartRun(runs, q.run, q.product);
      if left.Spent() {
        return Dead;
      }
      left := left.Next();
      AdvanceRun(q.run, PLANNED, ELIGIBLE, None, ForGeneration(q.gen));
      if left.Spent() {
        return Dead;
      }
      left := left.Next();
      AdvanceRun(q.run, ELIGIBLE, PUBLISHING, Some(q.attempt), Expecting(q.expected));
      if left.Spent() {
        return Dead;
      }
      var receipt := PublishAndRecover(q.attempt, PublishPayload(q), lose);
      if receipt.Bad? {
        return Raised(receipt.fault);
      }
      r := VerifyRun(q, receipt.value, read, left.Next());
    }

    method VerifyRun(q: Request, receipt: Receipt, read: Reader, lease: Lease) returns (r: Outcome)
      requires q.run in runs
      modifies this, store
      ensures (Value(), r) == Verify(old(Value()), q, receipt, read, lease)
    {
      if lease.Spent() {
        return Dead;
      }
      var left := lease.Next();
      AdvanceRun(q.run, PUBLISHING, VERIFYING, Some(q.attempt), Receipted(receipt));
      if left.Spent() {
        return Dead;
      }
      left := left.Next();
      var found := ResolveAndVerify(q.product, q.pin, read);
      if left.Spent() {
        return Dead;
      }
      if found.Bad? {
        AdvanceRun(q.run, VERIFYING, INCIDENT, Some(q.attempt), Failure(found.fault));
        return Raised(found.fault);
      }
      AdvanceRun(q.run, VERIFYING, ACTIVE, Some(q.attempt), Verified(found.value));
      r := Finished(receipt, found.value, runs[q.run]);
    }

    method FallBack(q: Request, lose: bool, lease: Lease) returns (r: Outcome)
      modifies this, store
      ensures (Value(), r) == FallbackAndVerify(old(Value()), q, lose, lease)
    {
      if q.run !in runs {
        return Raised(CB27O003_RUN_UNKNOWN);
      }
      if lease.Spent() {
        return Dead;
      }
      var left := lease.Next();
      AdvanceRun(q.run, ACTIVE, INCIDENT, Some(q.attempt), Drill);
      if left.Spent() {
        return Dead;
      }
      left := left.Next();
      AdvanceRun(q.run, INCIDENT, RECOVERING, Some(q.attempt), Authorized(q.authorization));
      if left.Spent() {
        return Dead;
      }
      var receipt := FallBackAndRecover(q.attempt, FallbackPayload(q), lose);
      if receipt.Bad? {
        return Raised(receipt.fault);
      }
      r := VerifySourceRoute(q, receipt.value, left.Next());
    }

    method VerifySourceRoute(q: Request, receipt: Receipt, lease: Lease) returns (r: Outcome)
      requires q.run in runs
      modifies this, store
      ensures (Value(), r) == VerifySource(old(Value()), q, receipt, lease)
    {
      if lease.Spent() {
        return Dead;
      }
      var found := ResolveAndVerify(q.product, q.attempt + ":source-pin", NoReader());
      if found.Bad? {
        return Raised(found.fault);
      }
      if lease.Next().Spent() {
        return Dead;
      }
      AdvanceRun(q.run, RECOVERING, SOURCE_FALLBACK_VERIFIED, Some(q.attempt), Receipted(receipt));
      r := Finished(receipt, found.value, runs[q.run]);
    }
  }

  /** A table that fails makes the whole reading fail alike. */
  lemma {:induction false} ReadStops(map_: TableMap, i: nat, read: Reader)
    requires i < |TABLES| && map_.Keys == {"order_items", "orders"}
    requires ReadTables(map_, TABLES[..i], read).Good? && ReadTable(map_, TABLES[i], read).Bad?
    ensures ReadTables(map_, TABLES, read) == Bad(ReadTable(map_, TABLES[i], read).fault)
  {
    assert TABLES[..2] == TABLES && TABLES[..1] == ["order_items"] && TABLES[..0] == [];
    assert TABLES[..|TABLES| - 1] == TABLES[..1] && ["order_items"][..0] == [];
  }
}
