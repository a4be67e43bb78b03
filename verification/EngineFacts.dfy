/**
What every run of the engine keeps.  A history remembers, for each generation, the
snapshot it was loaded with and the batches that were accepted, oldest first; the
tables of the engine are shown to be a function of it.
*/
module EngineFacts {
  import opened Common
  import opened Engine

  datatype History = History(snapshot: Tables, batches: seq<CdcBatch>)

  /** The histories of all generations, and every generation the pointer was moved to. */
  datatype Log = Log(histories: map<string, History>, activations: seq<string>)

  datatype Op =
    | Create(gen: string, snapshotLsn: int, schema: string)
    | Load(gen: string, tables: Tables)
    | Batch(gen: string, batch: CdcBatch, crash: bool)
    | Ready(gen: string)
    | Activation(gen: string, expected: int)

  /** A rejected, replayed or crashed call leaves the state as it was. */
  function Step(s: State, op: Op): State
  {
    match op
    case Create(gen, lsn, schema) => Kept(s, CreateGeneration(s, gen, lsn, schema))
    case Load(gen, tables) => Kept(s, LoadSnapshot(s, gen, tables))
    case Batch(gen, b, crash) =>
      (match ApplyBatch(s, gen, b, crash)
       case Ok((s', _)) => s'
       case Err(_) => s)
    case Ready(gen) => Kept(s, MarkReady(s, gen))
    case Activation(gen, expected) => Kept(s, Activate(s, gen, expected))
  }

  function Kept(s: State, r: Result<State>): State { if r.Ok? then r.value else s }

  /** Only accepted calls enter the log. */
  function NextLog(s: State, log: Log, op: Op): Log
  {
    match op
    case Create(gen, lsn, schema) =>
      if CreateGeneration(s, gen, lsn, schema).Err? then log
      else log.(histories := log.histories[gen := History(map[], [])])
    case Load(gen, tables) =>
      if LoadSnapshot(s, gen, tables).Err? then log
      else log.(histories := log.histories[gen := History(tables, [])])
    case Batch(gen, b, crash) =>
      var r := ApplyBatch(s, gen, b, crash);
      if r.Err? || r.value.1 || gen !in log.histories then log
      else
        var h := log.histories[gen];
        log.(histories := log.histories[gen := h.(batches := h.batches + [b])])
    case Ready(gen) => log
    case Activation(gen, expected) =>
      if Activate(s, gen, expected).Err? then log else log.(activations := log.activations + [gen])
  }

  function Run(ops: seq<Op>): (State, Log)
  {
    if ops == [] then (EMPTY, Log(map[], []))
    else
      var (s, log) := Run(ops[..|ops| - 1]);
      (Step(s, ops[|ops| - 1]), NextLog(s, log, ops[|ops| - 1]))
  }

  function AllTransactions(batches: seq<CdcBatch>): seq<CdcTransaction>
  {
    if batches == [] then []
    else AllTransactions(batches[..|batches| - 1]) + batches[|batches| - 1].transactions
  }

  /** The rows that replaying the changes in commit order gives. */
  function Replay(tables: Tables, ts: seq<CdcTransaction>): Tables
  {
    if ts == [] then tables
    else ReplayEvents(Replay(tables, ts[..|ts| - 1]), ts[|ts| - 1].events)
  }

  function ReplayEvents(tables: Tables, events: seq<ChangeEvent>): Tables
  {
    if events == [] then tables
    else
      var e := events[|events| - 1];
      var before := ReplayEvents(tables, events[..|events| - 1]);
      if e.operation.DELETE? then before - {e.Place()} else before[e.Place() := e.after.value]
  }

  /** The last change to a place and the LSN of its transaction. */
  function LastTouch(ts: seq<CdcTransaction>, place: Place): Option<(ChangeEvent, int)>
  {
    if ts == [] then None
    else
      var t := ts[|ts| - 1];
      match LastEvent(t.events, place)
      case Some(e) => Some((e, t.commitLsn))
      case None => LastTouch(ts[..|ts| - 1], place)
  }

  predicate LastDeletedAt(ts: seq<CdcTransaction>, place: Place, lsn: int)
  {
    match LastTouch(ts, place)
    case Some((e, last)) => e.operation.DELETE? && last == lsn
    case None => false
  }

  function LastEvent(events: seq<ChangeEvent>, place: Place): Option<ChangeEvent>
  {
    if events == [] then None
    else if events[|events| - 1].Place() == place then Some(events[|events| - 1])
    else LastEvent(events[..|events| - 1], place)
  }

  function Find<T>(m: map<Place, T>, place: Place): Option<T> { if place in m then Some(m[place]) else None }

  function SnapshotRecord(tables: Tables, lsn: int, place: Place): Option<Record>
  {
    Find(SnapshotRecords(tables, lsn), place)
  }

  /** Each record is what the last change to its place left, else the loaded row. */
  ghost predicate RecordsFollow(g: Generation, snapshot: Tables, ts: seq<CdcTransaction>)
  {
    forall place ::
      Find(g.records, place) == (match LastTouch(ts, place)
                                 case Some((e, lsn)) => Some(RecordOf(e, lsn))
                                 case None => SnapshotRecord(snapshot, g.snapshotLsn, place))
  }

  /** The applied transactions are exactly `ts`, under their ids. */
  ghost predicate TransactionsAre(g: Generation, ts: seq<CdcTransaction>)
  {
    && (forall t :: t in ts ==> t.id in g.transactions && g.transactions[t.id] == t)
    && (forall id :: id in g.transactions ==> g.transactions[id] in ts && g.transactions[id].id == id)
  }

  ghost predicate Applied(g: Generation, snapshot: Tables, ts: seq<CdcTransaction>, upTo: int)
  {
    && RecordsFollow(g, snapshot, ts)
    && TransactionsAre(g, ts)
    && g.snapshotLsn <= upTo && Ordered(g.snapshotLsn, ts, upTo)
  }

  /** The batches tile (from, to]: each begins where the one before ends. */
  predicate Tiles(batches: seq<CdcBatch>, from: int, to: int)
  {
    if batches == [] then from == to
    else
      var b := batches[|batches| - 1];
      b.end == to && Ordered(b.start, b.transactions, b.end) && Tiles(batches[..|batches| - 1], from, b.start)
  }

  /** The applied batches are exactly `batches`, under their distinct ids. */
  ghost predicate BatchesAre(g: Generation, batches: seq<CdcBatch>)
  {
    && (forall b :: b in batches ==> b.id in g.batches && g.batches[b.id] == b)
    && (forall id :: id in g.batches ==> g.batches[id] in batches && g.batches[id].id == id)
    && (forall i, j :: 0 <= i < j < |batches| ==> batches[i].id != batches[j].id)
  }

  ghost predicate Faithful(g: Generation, h: History)
  {
    && (g.status.LOADING? ==> h == History(map[], []))
    && Applied(g, h.snapshot, AllTransactions(h.batches), g.currentLsn)
    && Tiles(h.batches, g.snapshotLsn, g.currentLsn)
    && BatchesAre(g, h.batches)
  }

  /** The pointer counts its moves, names the last one's generation, and that one is ready. */
  ghost predicate PointerFollows(s: State, moves: seq<string>)
  {
    && s.version == |moves|
    && s.active == (if moves == [] then None else Some(moves[|moves| - 1]))
    && (s.active.Some? ==> s.active.value in s.generations && s.generations[s.active.value].status.READY?)
  }

  ghost predicate Inv(s: State, log: Log)
  {
    && s.generations.Keys == log.histories.Keys
    && (forall gen :: gen in s.generations ==> Faithful(s.generations[gen], log.histories[gen]))
    && PointerFollows(s, log.activations)
  }

  lemma {:induction false} OrderedMeans(previous: int, ts: seq<CdcTransaction>, end: int)
    ensures Ordered(previous, ts, end) <==>
              ((forall i :: 0 <= i < |ts| ==> previous < ts[i].commitLsn <= end) &&
               (forall i, j :: 0 <= i < j < |ts| ==> ts[i].commitLsn < ts[j].commitLsn))
    decreases |ts|
  {
    if ts != [] {
      var tail := ts[1..];
      OrderedMeans(ts[0].commitLsn, tail, end);
      if Ordered(previous, ts, end) {
        forall i | 1 <= i < |ts| ensures ts[0].commitLsn < ts[i].commitLsn <= end {
          assert ts[i] == tail[i - 1];
        }
        forall i, j | 0 <= i < j < |ts| ensures ts[i].commitLsn < ts[j].commitLsn {
          if i > 0 { assert ts[j] == tail[j - 1] && ts[i] == tail[i - 1]; }
        }
      } else if forall i :: 0 <= i < |ts| ==> previous < ts[i].commitLsn <= end {
        SomeDisorder(previous, ts, end);
      }
    }
  }

  lemma SomeDisorder(previous: int, ts: seq<CdcTransaction>, end: int)
    requires ts != [] && !Ordered(previous, ts, end) && forall i :: 0 <= i < |ts| ==> previous < ts[i].commitLsn <= end
    requires Ordered(ts[0].commitLsn, ts[1..], end) <==>
               ((forall i :: 0 <= i < |ts[1..]| ==> ts[0].commitLsn < ts[1..][i].commitLsn <= end) &&
                (forall i, j :: 0 <= i < j < |ts[1..]| ==> ts[1..][i].commitLsn < ts[1..][j].commitLsn))
    ensures exists i, j :: 0 <= i < j < |ts| && ts[i].commitLsn >= ts[j].commitLsn
  {
    var tail := ts[1..];
    assert !Ordered(ts[0].commitLsn, tail, end);
    if i :| 0 <= i < |tail| && tail[i].commitLsn <= ts[0].commitLsn {
      assert ts[i + 1] == tail[i] && ts[0].commitLsn >= ts[i + 1].commitLsn;
    } else {
      forall i | 0 <= i < |tail| ensures tail[i].commitLsn <= end { assert ts[i + 1] == tail[i]; }
      var i, j :| 0 <= i < j < |tail| && tail[i].commitLsn >= tail[j].commitLsn;
      assert ts[i + 1] == tail[i] && ts[j + 1] == tail[j];
    }
  }

  lemma OrderedJoins(from: int, a: seq<CdcTransaction>, middle: int, b: seq<CdcTransaction>, end: int)
    requires from <= middle <= end && Ordered(from, a, middle) && Ordered(middle, b, end)
    ensures Ordered(from, a + b, end)
  {
    OrderedMeans(from, a, middle);
    OrderedMeans(middle, b, end);
    OrderedMeans(from, a + b, end);
  }

  lemma {:induction false} UpsertIsLastEvent(records: Records, events: seq<ChangeEvent>, lsn: int, place: Place)
    ensures Find(Upsert(records, events, lsn), place) == (match LastEvent(events, place)
                                                         case Some(e) => Some(RecordOf(e, lsn))
                                                         case None => Find(records, place))
  {
    if events != [] { UpsertIsLastEvent(records, events[..|events| - 1], lsn, place); }
  }

  /** Every applied transaction lies at or below the frontier. */
  ghost predicate Below(g: Generation, upTo: int)
  {
    forall id :: id in g.transactions ==> g.transactions[id].id == id && g.transactions[id].commitLsn <= upTo
  }

  lemma AppliedBelow(g: Generation, snapshot: Tables, ts: seq<CdcTransaction>, upTo: int)
    requires Applied(g, snapshot, ts, upTo)
    ensures Below(g, upTo)
  {
    OrderedMeans(g.snapshotLsn, ts, upTo);
  }

  /** Every id is new, and no two agree. */
  ghost predicate NewIds(g: Generation, ts: seq<CdcTransaction>)
  {
    && (forall t :: t in ts ==> t.id !in g.transactions)
    && (forall i, j :: 0 <= i < j < |ts| ==> ts[i].id != ts[j].id)
  }

  lemma NewIdsSplit(g: Generation, g': Generation, t: CdcTransaction, rest: seq<CdcTransaction>)
    requires t.id !in g.transactions && g'.transactions == g.transactions[t.id := t]
    ensures NewIds(g, [t] + rest) <==> NewIds(g', rest)
  {
    var ts := [t] + rest;
    assert forall i :: 0 <= i < |rest| ==> rest[i] == ts[i + 1];
    if NewIds(g', rest) {
      forall i, j | 0 <= i < j < |ts| ensures ts[i].id != ts[j].id {
        assert ts[j] in rest;
        assert i > 0 ==> rest[i - 1].id != rest[j - 1].id;
      }
    }
    if NewIds(g, ts) {
      forall u | u in rest ensures u.id !in g'.transactions {
        var k :| 0 <= k < |rest| && rest[k] == u;
        assert ts[0].id != ts[k + 1].id;
        assert ts[k + 1] in ts;
      }
      forall i, j | 0 <= i < j < |rest| ensures rest[i].id != rest[j].id {
        assert ts[i + 1].id != ts[j + 1].id;
      }
    }
  }

  /**
  Transactions beyond the frontier are applied exactly when their ids are new: an
  applied transaction has a smaller LSN, so an id met again never carries the same
  transaction, and the branch that would skip it is never taken.
  */
  lemma {:induction false} AppliedIffNew(g: Generation, upTo: int, more: seq<CdcTransaction>, end: int)
    requires Below(g, upTo) && Ordered(upTo, more, end)
    ensures ApplyTransactions(g, more).Ok? || ApplyTransactions(g, more) == Err(REPLAY_CONFLICT)
    ensures ApplyTransactions(g, more).Ok? <==> NewIds(g, more)
    decreases |more|
  {
    if more != [] {
      var t, rest := more[0], more[1..];
      assert more == [t] + rest;
      if t.id in g.transactions {
        assert t in more;
      } else {
        var g' := ApplyTransaction(g, t).value;
        AppliedIffNew(g', t.commitLsn, rest, end);
        NewIdsSplit(g, g', t, rest);
      }
    }
  }

  lemma ApplyOne(g: Generation, snapshot: Tables, ts: seq<CdcTransaction>, upTo: int, t: CdcTransaction)
    requires Applied(g, snapshot, ts, upTo) && upTo < t.commitLsn && t.id !in g.transactions
    ensures Applied(ApplyTransaction(g, t).value, snapshot, ts + [t], t.commitLsn)
  {
    var g' := ApplyTransaction(g, t).value;
    assert (ts + [t])[..|ts|] == ts;
    forall place
      ensures Find(g'.records, place) == (match LastTouch(ts + [t], place)
                                          case Some((e, lsn)) => Some(RecordOf(e, lsn))
                                          case None => SnapshotRecord(snapshot, g.snapshotLsn, place))
    {
      UpsertIsLastEvent(g.records, t.events, t.commitLsn, place);
    }
    OrderedJoins(g.snapshotLsn, ts, upTo, [t], t.commitLsn);
  }

  lemma AppliedWidens(g: Generation, snapshot: Tables, ts: seq<CdcTransaction>, upTo: int, end: int)
    requires Applied(g, snapshot, ts, upTo) && upTo <= end
    ensures Applied(g, snapshot, ts, end)
  {
    OrderedMeans(g.snapshotLsn, ts, upTo);
    OrderedMeans(g.snapshotLsn, ts, end);
  }

  lemma {:induction false} ApplyAll(g: Generation, snapshot: Tables, ts: seq<CdcTransaction>, upTo: int,
                                    more: seq<CdcTransaction>, end: int)
    requires Applied(g, snapshot, ts, upTo) && Ordered(upTo, more, end) && upTo <= end
    requires ApplyTransactions(g, more).Ok?
    ensures Applied(ApplyTransactions(g, more).value, snapshot, ts + more, end)
    decreases |more|
  {
    hide Applied, Upsert;
    AppliedBelow(g, snapshot, ts, upTo);
    AppliedIffNew(g, upTo, more, end);
    if more == [] {
      assert ts + more == ts;
      AppliedWidens(g, snapshot, ts, upTo, end);
    } else {
      assert more[0] in more;
      ApplyOne(g, snapshot, ts, upTo, more[0]);
      ApplyAll(ApplyTransaction(g, more[0]).value, snapshot, ts + [more[0]], more[0].commitLsn, more[1..], end);
      assert (ts + [more[0]]) + more[1..] == ts + more;
    }
  }

  /** Applying transactions changes the records and the transactions only. */
  lemma {:induction false} TransactionsKeepRest(g: Generation, ts: seq<CdcTransaction>)
    ensures ApplyTransactions(g, ts).Ok? ==>
              var g' := ApplyTransactions(g, ts).value;
              g' == g.(records := g'.records, transactions := g'.transactions)
    decreases |ts|
  {
    if ts != [] && ApplyTransaction(g, ts[0]).Ok? {
      TransactionsKeepRest(ApplyTransaction(g, ts[0]).value, ts[1..]);
    }
  }

  /** The batch is newly applied. */
  predicate Accepts(g: Generation, b: CdcBatch, crash: bool)
  {
    ApplyTo(g, b, crash).Ok? && !ApplyTo(g, b, crash).value.1
  }

  /** Exactly when a batch is newly applied. */
  lemma BatchAccepted(g: Generation, h: History, b: CdcBatch, crash: bool)
    requires Faithful(g, h)
    ensures Accepts(g, b, crash) <==>
              && (g.status.CANDIDATE? || g.status.READY?) && b.id !in g.batches && b.start == g.currentLsn
              && Ordered(b.start, b.transactions, b.end) && NewIds(g, b.transactions) && !crash
  {
    AppliedBelow(g, h.snapshot, AllTransactions(h.batches), g.currentLsn);
    if b.start == g.currentLsn && Ordered(b.start, b.transactions, b.end) {
      AppliedIffNew(g, g.currentLsn, b.transactions, b.end);
    }
  }

  lemma BatchKeeps(g: Generation, h: History, b: CdcBatch)
    requires Faithful(g, h)
    requires Accepts(g, b, false)
    ensures Faithful(ApplyTo(g, b, false).value.0, h.(batches := h.batches + [b]))
    ensures ApplyTo(g, b, false).value.0.status == g.status
  {
    var g' := ApplyTo(g, b, false).value.0;
    var batches := h.batches + [b];
    assert batches[..|h.batches|] == h.batches;
    TransactionsKeepRest(g, b.transactions);
    ApplyAll(g, h.snapshot, AllTransactions(h.batches), g.currentLsn, b.transactions, b.end);
    AppliedFrame(ApplyTransactions(g, b.transactions).value, g', h.snapshot, AllTransactions(batches), b.end);
    assert Tiles(batches, g.snapshotLsn, g'.currentLsn);
    BatchesGrow(g, h.batches, b);
  }

  lemma AppliedFrame(g: Generation, g': Generation, snapshot: Tables, ts: seq<CdcTransaction>, upTo: int)
    requires Applied(g, snapshot, ts, upTo)
    requires g'.records == g.records && g'.transactions == g.transactions && g'.snapshotLsn == g.snapshotLsn
    ensures Applied(g', snapshot, ts, upTo)
  {
  }

  lemma BatchesGrow(g: Generation, batches: seq<CdcBatch>, b: CdcBatch)
    requires BatchesAre(g, batches) && b.id !in g.batches
    ensures forall g': Generation :: g'.batches == g.batches[b.id := b] ==> BatchesAre(g', batches + [b])
  {
    forall i | 0 <= i < |batches| ensures batches[i].id != b.id {
      assert batches[i] in batches;
    }
  }

  /** A transaction id that was applied before, in a new batch: the whole batch is rejected. */
  lemma ReusedIdRejects(s: State, log: Log, gen: string, b: CdcBatch, crash: bool)
    requires Inv(s, log) && gen in s.generations && b.id !in s.generations[gen].batches
    requires exists t :: t in b.transactions && t.id in s.generations[gen].transactions
    ensures ApplyBatch(s, gen, b, crash).Err? && Step(s, Batch(gen, b, crash)) == s
    ensures var g := s.generations[gen];
            (g.status.CANDIDATE? || g.status.READY?) && b.start == g.currentLsn
            && Ordered(b.start, b.transactions, b.end) ==>
              ApplyBatch(s, gen, b, crash) == Err(REPLAY_CONFLICT)
  {
    hide RecordsFollow, BatchesAre, TransactionsAre, PointerFollows;
    var g, h := s.generations[gen], log.histories[gen];
    assert Faithful(g, h);
    AppliedBelow(g, h.snapshot, AllTransactions(h.batches), g.currentLsn);
    assert !NewIds(g, b.transactions);
    if b.start == g.currentLsn && Ordered(b.start, b.transactions, b.end) {
      AppliedIffNew(g, g.currentLsn, b.transactions, b.end);
    }
  }

  /** Replace one generation and its history by another faithful pair. */
  lemma ReplaceKeeps(s: State, log: Log, gen: string, g: Generation, h: History)
    requires Inv(s, log) && Faithful(g, h)
    requires s.active == Some(gen) ==> g.status.READY?
    ensures Inv(s.(generations := s.generations[gen := g]), log.(histories := log.histories[gen := h]))
  {
    hide Faithful;
  }

  lemma LoadKeeps(g: Generation, h: History, tables: Tables)
    requires Faithful(g, h) && g.status.LOADING?
    ensures Faithful(g.(records := SnapshotRecords(tables, g.snapshotLsn), status := CANDIDATE), History(tables, []))
  {
    assert AllTransactions([]) == [];
    assert TransactionsAre(g, []);
    assert BatchesAre(g, []);
  }

  lemma NewIsFaithful(lsn: int, schema: string)
    ensures Faithful(Generation(lsn, lsn, schema, LOADING, map[], map[], map[]), History(map[], []))
  {
    var g := Generation(lsn, lsn, schema, LOADING, map[], map[], map[]);
    assert AllTransactions([]) == [];
    assert RecordsFollow(g, map[], []) && TransactionsAre(g, []);
    assert BatchesAre(g, []);
  }

  lemma CreateKeeps(s: State, log: Log, op: Op)
    requires Inv(s, log) && op.Create?
    ensures Inv(Step(s, op), NextLog(s, log, op))
  {
    hide Faithful;
    if CreateGeneration(s, op.gen, op.snapshotLsn, op.schema).Ok? {
      NewIsFaithful(op.snapshotLsn, op.schema);
      ReplaceKeeps(s, log, op.gen, Generation(op.snapshotLsn, op.snapshotLsn, op.schema, LOADING, map[], map[], map[]),
                   History(map[], []));
    }
  }

  lemma LoadOpKeeps(s: State, log: Log, op: Op)
    requires Inv(s, log) && op.Load?
    ensures Inv(Step(s, op), NextLog(s, log, op))
  {
    hide Faithful;
    if LoadSnapshot(s, op.gen, op.tables).Ok? {
      var g := s.generations[op.gen];
      LoadKeeps(g, log.histories[op.gen], op.tables);
      ReplaceKeeps(s, log, op.gen, g.(records := SnapshotRecords(op.tables, g.snapshotLsn), status := CANDIDATE),
                   History(op.tables, []));
    }
  }

  /** A batch that is not newly applied changes nothing; one that is changes its generation alone. */
  lemma BatchStep(s: State, log: Log, gen: string, b: CdcBatch, crash: bool)
    requires s.generations.Keys == log.histories.Keys
    ensures gen !in s.generations || !Accepts(s.generations[gen], b, crash) ==>
              Step(s, Batch(gen, b, crash)) == s && NextLog(s, log, Batch(gen, b, crash)) == log
    ensures gen in s.generations && Accepts(s.generations[gen], b, crash) ==>
              var (g, h) := (ApplyTo(s.generations[gen], b, crash).value.0, log.histories[gen]);
              && !crash
              && Step(s, Batch(gen, b, crash)) == s.(generations := s.generations[gen := g])
              && NextLog(s, log, Batch(gen, b, crash)) ==
                   log.(histories := log.histories[gen := h.(batches := h.batches + [b])])
  {
  }

  lemma BatchOpKeeps(s: State, log: Log, gen: string, b: CdcBatch, crash: bool)
    requires Inv(s, log)
    ensures Inv(Step(s, Batch(gen, b, crash)), NextLog(s, log, Batch(gen, b, crash)))
  {
    hide Faithful;
    BatchStep(s, log, gen, b, crash);
    if gen in s.generations && Accepts(s.generations[gen], b, crash) {
      var g, h := s.generations[gen], log.histories[gen];
      BatchKeeps(g, h, b);
      ReplaceKeeps(s, log, gen, ApplyTo(g, b, crash).value.0, h.(batches := h.batches + [b]));
    }
  }

  lemma ReadyKeeps(s: State, log: Log, op: Op)
    requires Inv(s, log) && op.Ready?
    ensures Inv(Step(s, op), NextLog(s, log, op))
  {
    hide Faithful;
    if MarkReady(s, op.gen).Ok? {
      var g, h := s.generations[op.gen], log.histories[op.gen];
      ReadyIsFaithful(g, h);
      ReplaceKeeps(s, log, op.gen, g.(status := READY), h);
      assert log.histories[op.gen := h] == log.histories;
    }
  }

  lemma ReadyIsFaithful(g: Generation, h: History)
    requires Faithful(g, h)
    ensures Faithful(g.(status := READY), h)
  {
    AppliedFrame(g, g.(status := READY), h.snapshot, AllTransactions(h.batches), g.currentLsn);
  }

  lemma StepKeeps(s: State, log: Log, op: Op)
    requires Inv(s, log)
    ensures Inv(Step(s, op), NextLog(s, log, op))
  {
    match op {
      case Create(_, _, _) => CreateKeeps(s, log, op);
      case Load(_, _) => LoadOpKeeps(s, log, op);
      case Batch(gen, b, crash) => BatchOpKeeps(s, log, gen, b, crash);
      case Ready(_) => ReadyKeeps(s, log, op);
      case Activation(_, _) =>
    }
  }

  /** The invariant holds after every run. */
  lemma {:induction false} RunKeeps(ops: seq<Op>)
    ensures Inv(Run(ops).0, Run(ops).1)
  {
    hide Faithful;
    if ops != [] {
      var (s, log) := Run(ops[..|ops| - 1]);
      RunKeeps(ops[..|ops| - 1]);
      StepKeeps(s, log, ops[|ops| - 1]);
    }
  }

  lemma {:induction false} EventsLast(tables: Tables, events: seq<ChangeEvent>, place: Place)
    ensures Find(ReplayEvents(tables, events), place) == (match LastEvent(events, place)
                                                         case Some(e) => e.after
                                                         case None => Find(tables, place))
  {
    if events != [] { EventsLast(tables, events[..|events| - 1], place); }
  }

  lemma {:induction false} ReplayIsLastTouch(tables: Tables, ts: seq<CdcTransaction>, place: Place)
    ensures Find(Replay(tables, ts), place) == (match LastTouch(ts, place)
                                               case Some((e, _)) => e.after
                                               case None => Find(tables, place))
  {
    if ts != [] {
      ReplayIsLastTouch(tables, ts[..|ts| - 1], place);
      EventsLast(Replay(tables, ts[..|ts| - 1]), ts[|ts| - 1].events, place);
    }
  }

  lemma PlaceFollows(g: Generation, h: History, place: Place)
    requires RecordsFollow(g, h.snapshot, AllTransactions(h.batches))
    ensures Find(StateOf(g), place) == Find(Replay(h.snapshot, AllTransactions(h.batches)), place)
    ensures forall lsn :: Find(Tombstones(g), place) == Some(lsn) <==>
              LastDeletedAt(AllTransactions(h.batches), place, lsn)
  {
    ReplayIsLastTouch(h.snapshot, AllTransactions(h.batches), place);
    assert Find(g.records, place) == (match LastTouch(AllTransactions(h.batches), place)
                                      case Some((e, lsn)) => Some(RecordOf(e, lsn))
                                      case None => SnapshotRecord(h.snapshot, g.snapshotLsn, place));
  }

  lemma SameRows(a: Tables, b: Tables)
    requires forall place :: Find(a, place) == Find(b, place)
    ensures a == b
  {
    forall place | place in a ensures place in b && b[place] == a[place] {
      assert Find(a, place) == Find(b, place);
    }
    forall place | place in b ensures place in a {
      assert Find(a, place) == Find(b, place);
    }
  }

  /**
  After any run the live rows of a generation are its snapshot with every applied
  transaction replayed in commit order, and its tombstones are exactly the places
  whose last change was a delete, each with the LSN of that delete.
  */
  lemma StateIsReplay(ops: seq<Op>, gen: string)
    requires gen in Run(ops).0.generations
    ensures gen in Run(ops).1.histories
    ensures var (g, h) := (Run(ops).0.generations[gen], Run(ops).1.histories[gen]);
            && StateOf(g) == Replay(h.snapshot, AllTransactions(h.batches))
            && (forall place, lsn :: Find(Tombstones(g), place) == Some(lsn) <==>
                  LastDeletedAt(AllTransactions(h.batches), place, lsn))
  {
    FaithfulAfter(ops, gen);
    var g, h := Run(ops).0.generations[gen], Run(ops).1.histories[gen];
    forall place { PlaceFollows(g, h, place); }
    SameRows(StateOf(g), Replay(h.snapshot, AllTransactions(h.batches)));
  }

  ghost predicate Covered(batches: seq<CdcBatch>, lsn: int)
  {
    exists i :: 0 <= i < |batches| && batches[i].start < lsn <= batches[i].end
  }

  lemma FaithfulAfter(ops: seq<Op>, gen: string)
    requires gen in Run(ops).0.generations
    ensures gen in Run(ops).1.histories && Faithful(Run(ops).0.generations[gen], Run(ops).1.histories[gen])
  {
    RunKeeps(ops);
  }

  /** After any run the applied batches tile the LSNs from the snapshot to the frontier. */
  lemma BatchesTile(ops: seq<Op>, gen: string)
    requires gen in Run(ops).0.generations
    ensures gen in Run(ops).1.histories
    ensures var (g, h) := (Run(ops).0.generations[gen], Run(ops).1.histories[gen]);
            && BatchesAre(g, h.batches)
            && (forall lsn :: g.snapshotLsn < lsn <= g.currentLsn <==> Covered(h.batches, lsn))
            && (forall i, j :: 0 <= i < j < |h.batches| ==> h.batches[i].end <= h.batches[j].start)
  {
    FaithfulAfter(ops, gen);
    var g, h := Run(ops).0.generations[gen], Run(ops).1.histories[gen];
    TilesCover(h.batches, g.snapshotLsn, g.currentLsn);
  }

  lemma TilesCover(batches: seq<CdcBatch>, from: int, to: int)
    requires Tiles(batches, from, to)
    ensures forall lsn :: from < lsn <= to <==> Covered(batches, lsn)
    ensures forall i, j :: 0 <= i < j < |batches| ==> batches[i].end <= batches[j].start
  {
    AllOrdered(batches, from, to);
    forall lsn ensures from < lsn <= to ==> Covered(batches, lsn) {
      if from < lsn <= to { EveryLsnCovered(batches, from, to, lsn); }
    }
  }

  lemma {:induction false} AllOrdered(batches: seq<CdcBatch>, from: int, to: int)
    requires Tiles(batches, from, to)
    ensures from <= to && Ordered(from, AllTransactions(batches), to)
    ensures forall i :: 0 <= i < |batches| ==> from <= batches[i].start && batches[i].end <= to
    ensures forall i, j :: 0 <= i < j < |batches| ==> batches[i].end <= batches[j].start
  {
    if batches != [] {
      var b := batches[|batches| - 1];
      AllOrdered(batches[..|batches| - 1], from, b.start);
      OrderedJoins(from, AllTransactions(batches[..|batches| - 1]), b.start, b.transactions, to);
    }
  }

  lemma {:induction false} EveryLsnCovered(batches: seq<CdcBatch>, from: int, to: int, lsn: int)
    requires Tiles(batches, from, to) && from < lsn <= to
    ensures Covered(batches, lsn)
  {
    var n := |batches| - 1;
    if batches[n].start < lsn {
      assert batches[n].start < lsn <= batches[n].end;
    } else {
      EveryLsnCovered(batches[..n], from, batches[n].start, lsn);
      var i :| 0 <= i < n && batches[..n][i].start < lsn <= batches[..n][i].end;
      assert batches[i].start < lsn <= batches[i].end;
    }
  }

  lemma AppliedOnce(g: Generation, ts: seq<CdcTransaction>)
    requires TransactionsAre(g, ts) && Ordered(g.snapshotLsn, ts, g.currentLsn)
    ensures forall i :: 0 <= i < |ts| ==> g.snapshotLsn < ts[i].commitLsn <= g.currentLsn
    ensures forall i, j :: 0 <= i < j < |ts| ==> ts[i].commitLsn < ts[j].commitLsn && ts[i].id != ts[j].id
    ensures (set t | t in ts :: t.id) == g.transactions.Keys
  {
    OrderedMeans(g.snapshotLsn, ts, g.currentLsn);
    forall i, j | 0 <= i < j < |ts| ensures ts[i].id != ts[j].id {
      assert ts[i] in ts && ts[j] in ts;
    }
    forall id | id in g.transactions ensures id in (set t | t in ts :: t.id) {
      assert g.transactions[id] in ts;
    }
  }

  /** Each transaction id took effect once: the applied transactions have distinct ids and rising LSNs. */
  lemma IdsTakeEffectOnce(ops: seq<Op>, gen: string)
    requires gen in Run(ops).0.generations
    ensures gen in Run(ops).1.histories
    ensures var (g, ts) := (Run(ops).0.generations[gen], AllTransactions(Run(ops).1.histories[gen].batches));
            && (forall i :: 0 <= i < |ts| ==> g.snapshotLsn < ts[i].commitLsn <= g.currentLsn)
            && (forall i, j :: 0 <= i < j < |ts| ==> ts[i].commitLsn < ts[j].commitLsn && ts[i].id != ts[j].id)
            && (set t | t in ts :: t.id) == g.transactions.Keys
  {
    hide RecordsFollow, TransactionsAre, BatchesAre, Tiles, Ordered, AllTransactions, Run;
    FaithfulAfter(ops, gen);
    AppliedOnce(Run(ops).0.generations[gen], AllTransactions(Run(ops).1.histories[gen].batches));
  }

  /** How the same transactions are cut into batches does not show in the records. */
  lemma BatchingIsIrrelevant(g: Generation, h: History, g': Generation, h': History)
    requires Faithful(g, h) && Faithful(g', h') && g.snapshotLsn == g'.snapshotLsn && h.snapshot == h'.snapshot
    requires AllTransactions(h.batches) == AllTransactions(h'.batches)
    ensures g.records == g'.records && StateOf(g) == StateOf(g') && Tombstones(g) == Tombstones(g')
    ensures g.transactions == g'.transactions
  {
    hide Tiles, BatchesAre, Ordered;
    forall place | place in g.records || place in g'.records
      ensures place in g.records && place in g'.records && g.records[place] == g'.records[place]
    {
      assert Find(g.records, place) == Find(g'.records, place);
    }
    assert g.records == g'.records;
    assert g.transactions.Keys == g'.transactions.Keys;
  }
}
