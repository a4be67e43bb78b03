/**
The reference engine (engine.py) and its domain objects (model.py).  Every record,
applied transaction and applied batch carries a foreign key to its generation, so
each generation holds its own.  A digest of a value is the value itself, which is
what an injective digest amounts to.
*/
module Engine {
  import opened Common
  import opened Events

  type Payload = map<string, Value>

  datatype Operation = INSERT | UPDATE | DELETE

  datatype EventData = EventData(table: string, key: string, operation: Operation,
                                 before: Option<Payload>, after: Option<Payload>)
  {
    function Place(): Place { (table, key) }
  }

  /** Construction refuses a delete with, or another change without, an after image. */
  type ChangeEvent = e: EventData | e.operation.DELETE? <==> e.after.None?
    witness EventData("", "", DELETE, None, None)

  datatype CdcTransaction = CdcTransaction(id: string, commitLsn: int, committedAt: string, events: seq<ChangeEvent>)

  datatype BatchData = BatchData(id: string, start: int, end: int, transactions: seq<CdcTransaction>)

  /** Construction refuses a batch that does not advance. */
  type CdcBatch = b: BatchData | b.start < b.end
    witness BatchData("", 0, 1, [])

  datatype Status = LOADING | CANDIDATE | READY | RETIRED

  type Place = (string, string)

  type Tables = map<Place, Payload>

  datatype Record = Record(payload: Option<Payload>, lsn: int, deleted: bool)

  type Records = map<Place, Record>

  datatype Generation = Generation(snapshotLsn: int, currentLsn: int, schema: string, status: Status,
                                   records: Records, transactions: map<string, CdcTransaction>,
                                   batches: map<string, CdcBatch>)

  datatype State = State(generations: map<string, Generation>, active: Option<string>, version: nat)

  datatype Code = VALUE_ERROR | INTEGRITY_ERROR | KEY_ERROR | INVALID_GENERATION_STATE | FRONTIER_GAP
                | REPLAY_CONFLICT | COMPARE_AND_SWAP_CONFLICT | INJECTED_CRASH

  datatype Result<+T> = Ok(value: T) | Err(code: Code)

  const EMPTY := State(map[], None, 0)

  function CreateGeneration(s: State, gen: string, snapshotLsn: int, schema: string): Result<State>
  {
    if snapshotLsn < 0 then Err(VALUE_ERROR)
    else if gen in s.generations then Err(INTEGRITY_ERROR)
    else
      var g := Generation(snapshotLsn, snapshotLsn, schema, LOADING, map[], map[], map[]);
      Ok(s.(generations := s.generations[gen := g]))
  }

  function SnapshotRecords(tables: Tables, lsn: int): Records
  {
    map place | place in tables :: Record(Some(tables[place]), lsn, false)
  }

  function LoadSnapshot(s: State, gen: string, tables: Tables): Result<State>
  {
    if gen !in s.generations then Err(KEY_ERROR)
    else if !s.generations[gen].status.LOADING? then Err(INVALID_GENERATION_STATE)
    else if s.generations[gen].records != map[] then Err(INVALID_GENERATION_STATE)
    else
      var g := s.generations[gen];
      Ok(s.(generations := s.generations[gen := g.(records := SnapshotRecords(tables, g.snapshotLsn),
                                                   status := CANDIDATE)]))
  }

  function RecordOf(e: ChangeEvent, lsn: int): Record { Record(e.after, lsn, e.operation.DELETE?) }

  /** INSERT ... ON CONFLICT DO UPDATE for each event. */
  function Upsert(records: Records, events: seq<ChangeEvent>, lsn: int): Records
  {
    if events == [] then records
    else
      var last := events[|events| - 1];
      Upsert(records, events[..|events| - 1], lsn)[last.Place() := RecordOf(last, lsn)]
  }

  function ApplyTransaction(g: Generation, t: CdcTransaction): Result<Generation>
  {
    if t.id in g.transactions then
      if g.transactions[t.id] != t then Err(REPLAY_CONFLICT) else Ok(g)
    else Ok(g.(records := Upsert(g.records, t.events, t.commitLsn), transactions := g.transactions[t.id := t]))
  }

  function ApplyTransactions(g: Generation, ts: seq<CdcTransaction>): Result<Generation>
    decreases |ts|
  {
    if ts == [] then Ok(g)
    else match ApplyTransaction(g, ts[0])
      case Err(code) => Err(code)
      case Ok(g') => ApplyTransactions(g', ts[1..])
  }

  /** Strictly increasing commit LSNs inside (previous, end]. */
  predicate Ordered(previous: int, ts: seq<CdcTransaction>, end: int)
    decreases |ts|
  {
    ts == [] || (previous < ts[0].commitLsn <= end && Ordered(ts[0].commitLsn, ts[1..], end))
  }

  /** What a batch does to its generation, and whether it was a replay. */
  function ApplyTo(g: Generation, b: CdcBatch, crash: bool): Result<(Generation, bool)>
  {
    if !(g.status.CANDIDATE? || g.status.READY?) then Err(INVALID_GENERATION_STATE)
    else if b.id in g.batches then
      if g.batches[b.id] != b then Err(REPLAY_CONFLICT) else Ok((g, true))
    else if b.start != g.currentLsn then Err(FRONTIER_GAP)
    else if !Ordered(b.start, b.transactions, b.end) then Err(FRONTIER_GAP)
    else match ApplyTransactions(g, b.transactions)
      case Err(code) => Err(code)
      case Ok(g') =>
        if crash then Err(INJECTED_CRASH)
        else Ok((g'.(batches := g.batches[b.id := b], currentLsn := b.end), false))
  }

  function ApplyBatch(s: State, gen: string, b: CdcBatch, crash: bool): Result<(State, bool)>
  {
    if gen !in s.generations then Err(KEY_ERROR)
    else match ApplyTo(s.generations[gen], b, crash)
      case Err(code) => Err(code)
      case Ok((g, replay)) => Ok((if replay then s else s.(generations := s.generations[gen := g]), replay))
  }

  /** The live rows. */
  function StateOf(g: Generation): Tables
  {
    map place | place in g.records && !g.records[place].deleted && g.records[place].payload.Some? ::
      g.records[place].payload.value
  }

  /** The tombstones, with the LSN of the delete. */
  function Tombstones(g: Generation): map<Place, int>
  {
    map place | place in g.records && g.records[place].deleted :: g.records[place].lsn
  }

  function MarkReady(s: State, gen: string): Result<State>
  {
    if gen !in s.generations then Err(KEY_ERROR)
    else if !s.generations[gen].status.CANDIDATE? then Err(INVALID_GENERATION_STATE)
    else Ok(s.(generations := s.generations[gen := s.generations[gen].(status := READY)]))
  }

  function Activate(s: State, gen: string, expected: int): Result<State>
  {
    if gen !in s.generations then Err(KEY_ERROR)
    else if !s.generations[gen].status.READY? then Err(INVALID_GENERATION_STATE)
    else if s.version != expected then Err(COMPARE_AND_SWAP_CONFLICT)
    else Ok(s.(active := Some(gen), version := s.version + 1))
  }

  /** engine.py's `ChangeBridgeEngine`. */
  class ChangeBridgeEngine {
    var generations: map<string, Generation>
    var active: Option<string>
    var version: nat

    ghost function Value(): State
      reads this
    {
      State(generations, active, version)
    }

    constructor ()
      ensures Value() == EMPTY
    {
      generations, active, version := map[], None, 0;
    }

    method Create(gen: string, snapshotLsn: int, schema: string) returns (code: Option<Code>)
      modifies this
      ensures match CreateGeneration(old(Value()), gen, snapshotLsn, schema)
              case Ok(s) => code == None && Value() == s
              case Err(c) => code == Some(c) && Value() == old(Value())
    {
      if snapshotLsn < 0 {
        return Some(VALUE_ERROR);
      }
      if gen in generations {
        return Some(INTEGRITY_ERROR);
      }
      generations := generations[gen := Generation(snapshotLsn, snapshotLsn, schema, LOADING, map[], map[], map[])];
      code := None;
    }

    method Load(gen: string, tables: Tables) returns (code: Option<Code>)
      modifies this
      ensures match LoadSnapshot(old(Value()), gen, tables)
              case Ok(s) => code == None && Value() == s
              case Err(c) => code == Some(c) && Value() == old(Value())
    {
      if gen !in generations {
        return Some(KEY_ERROR);
      }
      var g := generations[gen];
      if !g.status.LOADING? {
        return Some(INVALID_GENERATION_STATE);
      }
      if g.records != map[] {
        return Some(INVALID_GENERATION_STATE);
      }
      var loaded: Records := map[];
      var todo := tables.Keys;
      while todo != {}
        invariant todo <= tables.Keys && loaded.Keys == tables.Keys - todo
        invariant forall place :: place in loaded ==> loaded[place] == Record(Some(tables[place]), g.snapshotLsn, false)
        invariant Value() == old(Value())
        decreases todo
      {
        var place :| place in todo;
        loaded := loaded[place := Record(Some(tables[place]), g.snapshotLsn, false)];
        todo := todo - {place};
      }
      assert loaded == SnapshotRecords(tables, g.snapshotLsn);
      generations := generations[gen := g.(records := loaded, status := CANDIDATE)];
      code := None;
    }

    method CheckOrder(b: CdcBatch) returns (ok: bool)
      ensures ok == Ordered(b.start, b.transactions, b.end)
    {
      var previous := b.start;
      var i := 0;
      while i < |b.transactions|
        invariant 0 <= i <= |b.transactions|
        invariant Ordered(b.start, b.transactions, b.end) == Ordered(previous, b.transactions[i..], b.end)
      {
        var t := b.transactions[i];
        assert b.transactions[i..][0] == t && b.transactions[i..][1..] == b.transactions[i + 1..];
        if !(previous < t.commitLsn <= b.end) {
          return false;
        }
        previous := t.commitLsn;
        i := i + 1;
      }
      ok := true;
    }

    method WriteEvents(found: Records, t: CdcTransaction) returns (r: Records)
      ensures r == Upsert(found, t.events, t.commitLsn)
    {
      r := found;
      var j := 0;
      while j < |t.events|
        invariant 0 <= j <= |t.events|
        invariant r == Upsert(found, t.events[..j], t.commitLsn)
      {
        var e := t.events[j];
        assert t.events[..j + 1][..j] == t.events[..j];
        r := r[e.Place() := RecordOf(e, t.commitLsn)];
        j := j + 1;
      }
      assert t.events[..j] == t.events;
    }

    /** Apply a contiguous batch atomically. */
    method Apply(gen: string, b: CdcBatch, crash: bool) returns (r: Result<bool>)
      modifies this
      ensures match ApplyBatch(old(Value()), gen, b, crash)
              case Ok((s, replay)) => r == Ok(replay) && Value() == s
              case Err(code) => r == Err(code) && Value() == old(Value())
    {
      if gen !in generations {
        return Err(KEY_ERROR);
      }
      var g := generations[gen];
      if !(g.status.CANDIDATE? || g.status.READY?) {
        return Err(INVALID_GENERATION_STATE);
      }
      if b.id in g.batches {
        return if g.batches[b.id] != b then Err(REPLAY_CONFLICT) else Ok(true);
      }
      if b.start != g.currentLsn {
        return Err(FRONTIER_GAP);
      }
      var ordered := CheckOrder(b);
      if !ordered {
        return Err(FRONTIER_GAP);
      }
      var w := g;
      var i := 0;
      while i < |b.transactions|
        invariant 0 <= i <= |b.transactions|
        invariant Value() == old(Value())
        invariant ApplyTransactions(g, b.transactions) == ApplyTransactions(w, b.transactions[i..])
      {
        var t := b.transactions[i];
        assert b.transactions[i..][0] == t && b.transactions[i..][1..] == b.transactions[i + 1..];
        if t.id in w.transactions {
          if w.transactions[t.id] != t {
            return Err(REPLAY_CONFLICT);
          }
        } else {
          var written := WriteEvents(w.records, t);
          w := w.(records := written, transactions := w.transactions[t.id := t]);
        }
        i := i + 1;
      }
      if crash {
        return Err(INJECTED_CRASH);
      }
      generations := generations[gen := w.(batches := g.batches[b.id := b], currentLsn := b.end)];
      r := Ok(false);
    }

    method Ready(gen: string) returns (code: Option<Code>)
      modifies this
      ensures match MarkReady(old(Value()), gen)
              case Ok(s) => code == None && Value() == s
              case Err(c) => code == Some(c) && Value() == old(Value())
    {
      if gen !in generations {
        return Some(KEY_ERROR);
      }
      if !generations[gen].status.CANDIDATE? {
        return Some(INVALID_GENERATION_STATE);
      }
      generations := generations[gen := generations[gen].(status := READY)];
      code := None;
    }

    method ActivateGeneration(gen: string, expected: int) returns (r: Result<int>)
      modifies this
      ensures match Activate(old(Value()), gen, expected)
              case Ok(s) => r == Ok(expected + 1) && Value() == s
              case Err(c) => r == Err(c) && Value() == old(Value())
    {
      if gen !in generations {
        return Err(KEY_ERROR);
      }
      if !generations[gen].status.READY? {
        return Err(INVALID_GENERATION_STATE);
      }
      if version != expected {
        return Err(COMPARE_AND_SWAP_CONFLICT);
      }
      active, version := Some(gen), version + 1;
      r := Ok(expected + 1);
    }
  }
}
