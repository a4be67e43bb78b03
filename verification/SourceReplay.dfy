/**
The synthetic source (source_workload.py): validation of a workload and the replay of
its committed transactions, in commit order, on two keyed tables.  A digest of a body
is the body itself, so a mismatch is a difference.
*/
module SourceReplay {
  import opened Common
  import opened Sorting
  import opened Events
  import Ref = ReferenceCdc

  type Rows = Ref.Rows

  datatype EventBody = EventBody(sequence: int, table: string, operation: string, key: string,
                                 before: Option<Row>, after: Option<Row>)

  datatype SourceEvent = SourceEvent(body: EventBody, digest: EventBody)

  datatype TransactionBody = TransactionBody(id: string, sequence: int, phase: string, outcome: string,
                                             commit: Option<int>, events: seq<SourceEvent>)

  datatype Transaction = Transaction(body: TransactionBody, digest: TransactionBody)

  datatype Schedule = Schedule(transactions: seq<string>, commitOrder: seq<string>)

  datatype Material = Material(version: string, transactions: seq<Transaction>, schedules: seq<Schedule>)

  datatype Workload = Workload(material: Material, id: Material)

  datatype Phase = PRE_BOUNDARY | POST_BOUNDARY

  datatype Code =
    | CBSRC003_UNKNOWN_WORKLOAD_VERSION | CBSRC004_WORKLOAD_ID_MISMATCH | CBSRC005_INVALID_TRANSACTION_PLAN
    | CBSRC006_DUPLICATE_TRANSACTION_ID | CBSRC007_DUPLICATE_TRANSACTION_SEQUENCE | CBSRC008_ABORT_HAS_COMMIT_ORDINAL
    | CBSRC009_INVALID_COMMIT_SCHEDULE | CBSRC010_INVALID_CONCURRENCY_SCHEDULE | CBSRC011_REPLAY_INSERT_CONFLICT
    | CBSRC012_REPLAY_BEFORE_MISMATCH | CBSRC013_UNKNOWN_OPERATION | CBSRC028_EVENT_DIGEST_MISMATCH
    | CBSRC029_TRANSACTION_DIGEST_MISMATCH | KEY_ERROR

  datatype Result<+T> = Ok(value: T) | Err(code: Code)

  datatype Replayed = Replayed(rows: Rows, committed: seq<Transaction>, aborted: seq<Transaction>)

  const VERSION := "source-workload-spec/1.0.0"

  const WRITERS := {"tx-006-writer-a", "tx-007-writer-b"}

  const TABLES := {"order_items", "orders"}

  /** What validation has seen so far. */
  datatype Seen = Seen(ids: set<string>, sequences: set<int>, commits: set<int>)

  const NOTHING := Seen({}, {}, {})

  predicate IntactEvents(events: seq<SourceEvent>) { forall e :: e in events ==> e.digest == e.body }

  function TransactionFault(t: Transaction, seen: Seen): Option<Code>
  {
    var b := t.body;
    if b.id in seen.ids then Some(CBSRC006_DUPLICATE_TRANSACTION_ID)
    else if b.sequence in seen.sequences then Some(CBSRC007_DUPLICATE_TRANSACTION_SEQUENCE)
    else if b.phase !in {"PRE_BOUNDARY", "POST_BOUNDARY"} || b.outcome !in {"COMMIT", "ABORT"}
    then Some(CBSRC005_INVALID_TRANSACTION_PLAN)
    else if b.outcome == "ABORT" && b.commit != None then Some(CBSRC008_ABORT_HAS_COMMIT_ORDINAL)
    else if b.outcome == "COMMIT" && (b.commit == None || b.commit.value <= 0 || b.commit.value in seen.commits)
    then Some(CBSRC009_INVALID_COMMIT_SCHEDULE)
    else if b.events == [] then Some(CBSRC005_INVALID_TRANSACTION_PLAN)
    else if !IntactEvents(b.events) then Some(CBSRC028_EVENT_DIGEST_MISMATCH)
    else if t.digest != b then Some(CBSRC029_TRANSACTION_DIGEST_MISMATCH)
    else None
  }

  function After(t: Transaction, seen: Seen): Seen
  {
    Seen(seen.ids + {t.body.id}, seen.sequences + {t.body.sequence},
         if t.body.commit.Some? then seen.commits + {t.body.commit.value} else seen.commits)
  }

  /** Scan the transactions in order: the first fault, or everything that was seen. */
  function Scan(ts: seq<Transaction>, seen: Seen): Result<Seen>
    decreases |ts|
  {
    if ts == [] then Ok(seen)
    else if TransactionFault(ts[0], seen) != None then Err(TransactionFault(ts[0], seen).value)
    else Scan(ts[1..], After(ts[0], seen))
  }

  /** `set(range(1, n + 1))`. */
  function UpTo(n: nat): (r: set<int>)
    ensures forall k :: k in r <==> 1 <= k <= n
  {
    if n == 0 then {} else UpTo(n - 1) + {n}
  }

  predicate Scheduled(schedules: seq<Schedule>)
  {
    && |schedules| == 1
    && Elements(schedules[0].transactions) == WRITERS
    && schedules[0].commitOrder == ["tx-007-writer-b", "tx-006-writer-a"]
  }

  /** `validate_workload`. */
  function Fault(spec: Workload): Option<Code>
  {
    if spec.material.version != VERSION then Some(CBSRC003_UNKNOWN_WORKLOAD_VERSION)
    else if spec.id != spec.material then Some(CBSRC004_WORKLOAD_ID_MISMATCH)
    else if spec.material.transactions == [] then Some(CBSRC005_INVALID_TRANSACTION_PLAN)
    else match Scan(spec.material.transactions, NOTHING)
      case Err(code) => Some(code)
      case Ok(seen) =>
        if seen.commits != UpTo(|seen.commits|) then Some(CBSRC009_INVALID_COMMIT_SCHEDULE)
        else if !Scheduled(spec.material.schedules) then Some(CBSRC010_INVALID_CONCURRENCY_SCHEDULE)
        else None
  }

  method ValidateWorkload(spec: Workload) returns (fault: Option<Code>)
    ensures fault == Fault(spec)
  {
    if spec.material.version != VERSION {
      return Some(CBSRC003_UNKNOWN_WORKLOAD_VERSION);
    }
    if spec.id != spec.material {
      return Some(CBSRC004_WORKLOAD_ID_MISMATCH);
    }
    var ts := spec.material.transactions;
    if ts == [] {
      return Some(CBSRC005_INVALID_TRANSACTION_PLAN);
    }
    var seen := NOTHING;
    var i := 0;
    while i < |ts|
      invariant 0 <= i <= |ts|
      invariant Scan(ts, NOTHING) == Scan(ts[i..], seen)
    {
      assert ts[i..][0] == ts[i] && ts[i..][1..] == ts[i + 1..];
      fault := TransactionFault(ts[i], seen);
      if fault.Some? {
        return;
      }
      seen := After(ts[i], seen);
      i := i + 1;
    }
    if seen.commits != UpTo(|seen.commits|) {
      return Some(CBSRC009_INVALID_COMMIT_SCHEDULE);
    }
    if !Scheduled(spec.material.schedules) {
      return Some(CBSRC010_INVALID_CONCURRENCY_SCHEDULE);
    }
    fault := None;
  }

  /** A schema change adds an empty `source_note` to every order. */
  function WithNote(rows: Rows): Rows
  {
    map p | p in rows :: if p.0 == "orders" then rows[p].(fields := rows[p].fields["source_note" := Null]) else rows[p]
  }

  function ReplayEvent(rows: Rows, e: EventBody): Result<Rows>
  {
    var place := (e.table, e.key);
    var current := Ref.Lookup(rows, place);
    if e.operation == "schema_change" then Ok(WithNote(rows))
    else if e.table !in TABLES then Err(KEY_ERROR)
    else if e.operation == "insert" then
      if current != None || e.before != None || e.after == None then Err(CBSRC011_REPLAY_INSERT_CONFLICT)
      else Ok(rows[place := e.after.value])
    else if e.operation == "update" then
      if current != e.before || e.after == None then Err(CBSRC012_REPLAY_BEFORE_MISMATCH)
      else Ok(rows[place := e.after.value])
    else if e.operation == "delete" then
      if current != e.before || e.after != None then Err(CBSRC012_REPLAY_BEFORE_MISMATCH)
      else if current == None then Err(KEY_ERROR)
      else Ok(rows - {place})
    else Err(CBSRC013_UNKNOWN_OPERATION)
  }

  function ReplayEvents(rows: Rows, events: seq<SourceEvent>): Result<Rows>
    decreases |events|
  {
    if events == [] then Ok(rows)
    else match ReplayEvent(rows, events[0].body)
      case Err(code) => Err(code)
      case Ok(rows') => ReplayEvents(rows', events[1..])
  }

  predicate Commits(t: Transaction) { t.body.outcome != "ABORT" }

  /** The rows after the committed transactions of `ts`, in the given order. */
  function ReplayAll(rows: Rows, ts: seq<Transaction>): Result<Rows>
    decreases |ts|
  {
    if ts == [] then Ok(rows)
    else if !Commits(ts[0]) then ReplayAll(rows, ts[1..])
    else match ReplayEvents(rows, ts[0].body.events)
      case Err(code) => Err(code)
      case Ok(rows') => ReplayAll(rows', ts[1..])
  }

  function Filtered(ts: seq<Transaction>, keep: Transaction -> bool): seq<Transaction>
  {
    if ts == [] then [] else Filtered(ts[..|ts| - 1], keep) + (if keep(ts[|ts| - 1]) then [ts[|ts| - 1]] else [])
  }

  predicate Within(t: Transaction, phase: Phase) { phase.POST_BOUNDARY? || t.body.phase == "PRE_BOUNDARY" }

  /** A transaction without an ordinal, or with ordinal zero, sorts at 2^31. */
  function CommitKey(t: Transaction): Key
  {
    [if t.body.commit.Some? && t.body.commit.value != 0 then t.body.commit.value else 0x8000_0000]
  }

  function Eligible(spec: Workload, phase: Phase): seq<Transaction>
  {
    SortBy(Filtered(spec.material.transactions, t => Within(t, phase)), CommitKey)
  }

  /** `replay_workload`. */
  function Replay(spec: Workload, phase: Phase): Result<Replayed>
  {
    if Fault(spec) != None then Err(Fault(spec).value)
    else
      var eligible := Eligible(spec, phase);
      match ReplayAll(map[], eligible)
      case Err(code) => Err(code)
      case Ok(rows) => Ok(Replayed(rows, Filtered(eligible, Commits), Filtered(eligible, t => !Commits(t))))
  }

  method ReplayTransaction(found: Rows, events: seq<SourceEvent>) returns (r: Result<Rows>)
    ensures r == ReplayEvents(found, events)
  {
    var rows := found;
    var i := 0;
    while i < |events|
      invariant 0 <= i <= |events|
      invariant ReplayEvents(found, events) == ReplayEvents(rows, events[i..])
    {
      var e := events[i].body;
      assert events[i..][0] == events[i] && events[i..][1..] == events[i + 1..];
      if e.operation == "schema_change" {
        rows := WithNote(rows);
      } else {
        if e.table !in TABLES {
          return Err(KEY_ERROR);
        }
        var place := (e.table, e.key);
        var current := if place in rows then Some(rows[place]) else None;
        if e.operation == "insert" {
          if current != None || e.before != None || e.after == None {
            return Err(CBSRC011_REPLAY_INSERT_CONFLICT);
          }
          rows := rows[place := e.after.value];
        } else if e.operation == "update" {
          if current != e.before || e.after == None {
            return Err(CBSRC012_REPLAY_BEFORE_MISMATCH);
          }
          rows := rows[place := e.after.value];
        } else if e.operation == "delete" {
          if current != e.before || e.after != None {
            return Err(CBSRC012_REPLAY_BEFORE_MISMATCH);
          }
          if current == None {
            return Err(KEY_ERROR);
          }
          rows := rows - {place};
        } else {
          return Err(CBSRC013_UNKNOWN_OPERATION);
        }
      }
      i := i + 1;
    }
    r := Ok(rows);
  }

  method ReplayWorkload(spec: Workload, phase: Phase) returns (r: Result<Replayed>)
    ensures r == Replay(spec, phase)
  {
    hide Fault, Eligible, ReplayEvents;
    var fault := ValidateWorkload(spec);
    if fault.Some? {
      return Err(fault.value);
    }
    var eligible := Eligible(spec, phase);
    var rows: Rows, committed, aborted := map[], [], [];
    var i := 0;
    while i < |eligible|
      invariant 0 <= i <= |eligible|
      invariant ReplayAll(map[], eligible) == ReplayAll(rows, eligible[i..])
      invariant committed == Filtered(eligible[..i], Commits)
      invariant aborted == Filtered(eligible[..i], t => !Commits(t))
    {
      var t := eligible[i];
      assert eligible[i..][0] == t && eligible[i..][1..] == eligible[i + 1..];
      assert eligible[..i + 1][..i] == eligible[..i] && eligible[..i + 1][i] == t;
      if t.body.outcome == "ABORT" {
        aborted := aborted + [t];
      } else {
        var step := ReplayTransaction(rows, t.body.events);
        if step.Err? {
          return Err(step.code);
        }
        rows := step.value;
        committed := committed + [t];
      }
      i := i + 1;
    }
    assert eligible[..i] == eligible;
    r := Ok(Replayed(rows, committed, aborted));
  }
}
