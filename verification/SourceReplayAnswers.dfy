/**
What the source's replay does, place by place, and which workloads it takes.
*/
module SourceReplayAnswers {
  import opened Common
  import opened Sorting
  import opened Events
  import opened SourceReplay
  import opened SourceReplayFacts
  import Ref = ReferenceCdc

  /** The row with `source_note` set to nothing, and all else as it was. */
  ghost predicate Noted(row: Row, row': Row)
  {
    && row'.key == row.key && row'.fields.Keys == row.fields.Keys + {"source_note"}
       && row'.fields["source_note"] == Null
    && forall name :: name in row.fields && name != "source_note" ==> row'.fields[name] == row.fields[name]
  }

  /** Every order is noted; every other row, and every place, is as it was. */
  ghost predicate OrdersNoted(rows: Rows, rows': Rows)
  {
    && rows'.Keys == rows.Keys
    && forall p :: p in rows ==> if p.0 == "orders" then Noted(rows[p], rows'[p]) else rows'[p] == rows[p]
  }

  lemma NotedOnce(row: Row, a: Row, b: Row)
    requires Noted(row, a) && Noted(row, b)
    ensures a == b
  {
    assert a.fields == b.fields;
  }

  lemma SchemaChangeMeans(rows: Rows)
    ensures OrdersNoted(rows, WithNote(rows))
  {
  }

  /** What an event needs of the rows. */
  predicate Applies(rows: Rows, e: EventBody)
  {
    match e.operation
    case "schema_change" => true
    case "insert" => e.table in TABLES && (e.table, e.key) !in rows && e.before == None && e.after.Some?
    case "update" => e.table in TABLES && Ref.Lookup(rows, (e.table, e.key)) == e.before && e.after.Some?
    case "delete" =>
      e.table in TABLES && e.before.Some? && Ref.Lookup(rows, (e.table, e.key)) == e.before && e.after == None
    case _ => false
  }

  /** What an event leaves: its own place as the after image says, every other as it was. */
  ghost predicate Leaves(rows: Rows, e: EventBody, rows': Rows)
  {
    if e.operation == "schema_change" then OrdersNoted(rows, rows')
    else
      && Ref.Lookup(rows', (e.table, e.key)) == e.after
      && forall p :: p != (e.table, e.key) ==> Ref.Lookup(rows', p) == Ref.Lookup(rows, p)
  }

  /** Why an event is refused. */
  function RefusalOf(rows: Rows, e: EventBody): Code
  {
    if e.table !in TABLES then KEY_ERROR
    else if e.operation == "insert" then CBSRC011_REPLAY_INSERT_CONFLICT
    else if e.operation == "update" then CBSRC012_REPLAY_BEFORE_MISMATCH
    else if e.operation == "delete" then
      if Ref.Lookup(rows, (e.table, e.key)) == None && e.before == None && e.after == None then KEY_ERROR
      else CBSRC012_REPLAY_BEFORE_MISMATCH
    else CBSRC013_UNKNOWN_OPERATION
  }

  /** One event of the replay: when it is taken, what it leaves, and why it is refused. */
  lemma EventMeans(rows: Rows, e: EventBody)
    ensures ReplayEvent(rows, e).Ok? <==> Applies(rows, e)
    ensures ReplayEvent(rows, e).Ok? ==> Leaves(rows, e, ReplayEvent(rows, e).value)
    ensures ReplayEvent(rows, e).Err? ==> ReplayEvent(rows, e).code == RefusalOf(rows, e)
  {
  }

  /** The row an update must name after a schema change. */
  predicate NamesNoted(rows: Rows, e: EventBody)
  {
    match Ref.Lookup(rows, (e.table, e.key))
    case None => e.before == None
    case Some(row) => e.before == Some(row.(fields := row.fields["source_note" := Null]))
  }

  /**
  An update of an order right after a schema change is taken exactly if its before image
  is the old row with `source_note` set to nothing; an update of an order item, exactly
  if its before image is the old row itself.
  */
  lemma UpdateAfterSchemaChange(rows: Rows, change: SourceEvent, update: SourceEvent)
    requires change.body.operation == "schema_change" && update.body.operation == "update" && update.body.after.Some?
    ensures update.body.table == "orders" ==>
      (ReplayEvents(rows, [change, update]).Ok? <==> NamesNoted(rows, update.body))
    ensures update.body.table == "order_items" ==>
      (ReplayEvents(rows, [change, update]).Ok? <==>
         Ref.Lookup(rows, (update.body.table, update.body.key)) == update.body.before)
    ensures ReplayEvents(rows, [change, update]).Err? && update.body.table in TABLES ==>
      ReplayEvents(rows, [change, update]) == Err(CBSRC012_REPLAY_BEFORE_MISMATCH)
  {
    hide ReplayEvents;
    assert [change, update][1..] == [update];
    OneMore(rows, [change, update]);
    OneEvent(WithNote(rows), update);
  }

  lemma OneMore(rows: Rows, events: seq<SourceEvent>)
    requires events != [] && ReplayEvent(rows, events[0].body).Ok?
    ensures ReplayEvents(rows, events) == ReplayEvents(ReplayEvent(rows, events[0].body).value, events[1..])
  {
  }

  lemma OneEvent(rows: Rows, e: SourceEvent)
    ensures ReplayEvents(rows, [e]) == ReplayEvent(rows, e.body)
  {
    hide ReplayEvent;
    assert [e][1..] == [];
  }

  /** A run of row states from event to event, each as its event leaves it. */
  ghost predicate Traces(states: seq<Rows>, events: seq<SourceEvent>)
  {
    && |states| == |events| + 1
    && forall i :: 0 <= i < |events| ==>
         Applies(states[i], events[i].body) && Leaves(states[i], events[i].body, states[i + 1])
  }

  /**
  A transaction is replayed exactly along a trace: there is a run of row states, each
  event applying to one and leaving the next, from the rows before to the rows after.
  */
  lemma {:induction false} TransactionMeans(rows: Rows, events: seq<SourceEvent>) returns (states: seq<Rows>)
    requires ReplayEvents(rows, events).Ok?
    ensures Traces(states, events) && states[0] == rows && states[|events|] == ReplayEvents(rows, events).value
    decreases |events|
  {
    hide ReplayEvent, Applies, Leaves;
    if events == [] {
      states := [rows];
    } else {
      EventMeans(rows, events[0].body);
      var rest := TransactionMeans(ReplayEvent(rows, events[0].body).value, events[1..]);
      states := [rows] + rest;
      forall i | 0 <= i < |events|
        ensures Applies(states[i], events[i].body) && Leaves(states[i], events[i].body, states[i + 1])
      {
        if i > 0 { assert events[i] == events[1..][i - 1]; }
      }
    }
  }

  /** A transaction that is not replayed has a first event that does not apply. */
  lemma {:induction false} TransactionRefused(rows: Rows, events: seq<SourceEvent>) returns (k: nat)
    requires ReplayEvents(rows, events).Err?
    ensures k < |events| && ReplayEvents(rows, events[..k]).Ok?
    ensures !Applies(ReplayEvents(rows, events[..k]).value, events[k].body)
    ensures ReplayEvents(rows, events).code == RefusalOf(ReplayEvents(rows, events[..k]).value, events[k].body)
    decreases |events|
  {
    hide ReplayEvent, Applies, RefusalOf;
    EventMeans(rows, events[0].body);
    if ReplayEvent(rows, events[0].body).Err? {
      k := 0;
      assert events[..0] == [];
    } else {
      var i := TransactionRefused(ReplayEvent(rows, events[0].body).value, events[1..]);
      k := i + 1;
      assert events[..k][0] == events[0] && events[..k][1..] == events[1..][..i];
    }
  }

  ghost predicate Intact(t: Transaction)
  {
    t.digest == t.body && forall e :: e in t.body.events ==> e.digest == e.body
  }

  /** The transactions a workload may have, after those seen. */
  ghost predicate Plannable(ts: seq<Transaction>, seen: Seen)
  {
    && WellPlanned(ts)
    && forall t :: t in ts ==> Intact(t) && Unseen(t, seen)
  }

  lemma {:induction false} ScanTakes(ts: seq<Transaction>, seen: Seen)
    ensures Scan(ts, seen).Ok? <==> Plannable(ts, seen)
    decreases |ts|
  {
    if ts != [] {
      var head, tail := ts[0], ts[1..];
      assert ts == [head] + tail;
      ScanTakes(tail, After(head, seen));
      assert forall i :: 0 <= i < |tail| ==> tail[i] == ts[i + 1];
      HeadTaken(head, seen);
      if Plannable(ts, seen) { TailPlannable(ts, seen); }
      if Scan(ts, seen).Ok? { AllPlannable(ts, seen); }
    }
  }

  lemma HeadTaken(t: Transaction, seen: Seen)
    ensures TransactionFault(t, seen) == None <==> Planned(t) && Intact(t) && Unseen(t, seen)
  {
  }

  lemma TailPlannable(ts: seq<Transaction>, seen: Seen)
    requires ts != [] && Plannable(ts, seen)
    ensures Plannable(ts[1..], After(ts[0], seen))
  {
    var tail := ts[1..];
    forall t | t in tail ensures t in ts && Unseen(t, After(ts[0], seen)) {
      var i :| 0 <= i < |tail| && tail[i] == t;
      assert ts[i + 1] == t && Apart(ts[0], ts[i + 1]) && Planned(ts[0]) && Planned(t);
    }
    forall i, j | 0 <= i < j < |tail| ensures Apart(tail[i], tail[j]) { assert Apart(ts[i + 1], ts[j + 1]); }
  }

  lemma AllPlannable(ts: seq<Transaction>, seen: Seen)
    requires ts != [] && Planned(ts[0]) && Intact(ts[0]) && Unseen(ts[0], seen)
    requires Plannable(ts[1..], After(ts[0], seen))
    ensures Plannable(ts, seen)
  {
    var tail := ts[1..];
    assert ts == [ts[0]] + tail;
    forall i, j | 0 <= i < j < |ts| ensures Apart(ts[i], ts[j]) {
      if i > 0 { assert Apart(tail[i - 1], tail[j - 1]); } else { assert tail[j - 1] in tail && Planned(ts[j]); }
    }
  }

  /** The one concurrency schedule: both writers, the second committing first. */
  ghost predicate OneSchedule(schedules: seq<Schedule>)
  {
    && |schedules| == 1
    && (forall w :: w in schedules[0].transactions <==> w == "tx-006-writer-a" || w == "tx-007-writer-b")
    && schedules[0].commitOrder == ["tx-007-writer-b", "tx-006-writer-a"]
  }

  /**
  Exactly the workloads that are taken: of the known version, named by their own digest,
  with intact transactions that share no id, sequence or ordinal, whose ordinals run from
  one to their number, and with the one concurrency schedule.
  */
  lemma WorkloadTakenIff(spec: Workload)
    ensures Fault(spec) == None <==>
      && spec.material.version == "source-workload-spec/1.0.0" && spec.id == spec.material
      && spec.material.transactions != []
      && WellPlanned(spec.material.transactions) && (forall t :: t in spec.material.transactions ==> Intact(t))
      && Ordinals(spec.material.transactions) == UpTo(|Ordinals(spec.material.transactions)|)
      && OneSchedule(spec.material.schedules)
  {
    hide WellPlanned, Intact, TransactionFault;
    var ts := spec.material.transactions;
    ScanTakes(ts, NOTHING);
    if Scan(ts, NOTHING).Ok? { ScanUnseen(ts, NOTHING); }
    ScheduleMeans(spec.material.schedules);
  }

  /** An earlier transaction has this id, sequence number or ordinal. */
  ghost predicate IdUsed(ts: seq<Transaction>, i: int)
    requires 0 <= i < |ts|
  {
    exists j :: 0 <= j < i && ts[j].body.id == ts[i].body.id
  }

  ghost predicate SequenceUsed(ts: seq<Transaction>, i: int)
    requires 0 <= i < |ts|
  {
    exists j :: 0 <= j < i && ts[j].body.sequence == ts[i].body.sequence
  }

  ghost predicate OrdinalUsed(ts: seq<Transaction>, i: int)
    requires 0 <= i < |ts|
  {
    ts[i].body.commit.Some? && exists j :: 0 <= j < i && ts[j].body.commit == Some(ts[i].body.commit.value)
  }

  /** Why a transaction of the plan is refused. */
  ghost predicate TransactionCause(ts: seq<Transaction>, i: int, code: Code)
    requires 0 <= i < |ts|
  {
    var b := ts[i].body;
    var unused := !IdUsed(ts, i) && !SequenceUsed(ts, i);
    var named := (b.phase == "PRE_BOUNDARY" || b.phase == "POST_BOUNDARY")
                 && (b.outcome == "COMMIT" || b.outcome == "ABORT");
    var timed := if b.outcome == "ABORT" then b.commit.None?
                 else b.commit.Some? && b.commit.value > 0 && !OrdinalUsed(ts, i);
    match code
    case CBSRC006_DUPLICATE_TRANSACTION_ID => IdUsed(ts, i)
    case CBSRC007_DUPLICATE_TRANSACTION_SEQUENCE => !IdUsed(ts, i) && SequenceUsed(ts, i)
    case CBSRC005_INVALID_TRANSACTION_PLAN => unused && (!named || (timed && b.events == []))
    case CBSRC008_ABORT_HAS_COMMIT_ORDINAL => unused && named && b.outcome == "ABORT" && !timed
    case CBSRC009_INVALID_COMMIT_SCHEDULE => unused && named && b.outcome == "COMMIT" && !timed
    case CBSRC028_EVENT_DIGEST_MISMATCH =>
      unused && named && timed && exists e :: e in b.events && e.digest != e.body
    case CBSRC029_TRANSACTION_DIGEST_MISMATCH =>
      unused && named && timed && (forall e :: e in b.events ==> e.digest == e.body) && ts[i].digest != b
    case _ => false
  }

  /** The first transaction that is refused, and why. */
  ghost predicate FirstRefused(ts: seq<Transaction>, code: Code)
  {
    exists i :: 0 <= i < |ts| && Plannable(ts[..i], NOTHING) && TransactionCause(ts, i, code)
  }

  /** Why a workload is not taken. */
  ghost predicate WorkloadCause(spec: Workload, code: Code)
  {
    var ts := spec.material.transactions;
    var version := spec.material.version == "source-workload-spec/1.0.0";
    var named := version && spec.id == spec.material;
    var planned := named && ts != [] && Plannable(ts, NOTHING);
    var scheduled := Ordinals(ts) == UpTo(|Ordinals(ts)|);
    match code
    case CBSRC003_UNKNOWN_WORKLOAD_VERSION => !version
    case CBSRC004_WORKLOAD_ID_MISMATCH => version && spec.id != spec.material
    case CBSRC005_INVALID_TRANSACTION_PLAN => named && (ts == [] || FirstRefused(ts, code))
    case CBSRC009_INVALID_COMMIT_SCHEDULE => named && ((planned && !scheduled) || FirstRefused(ts, code))
    case CBSRC010_INVALID_CONCURRENCY_SCHEDULE => planned && scheduled && !OneSchedule(spec.material.schedules)
    case _ => named && FirstRefused(ts, code)
  }

  /** What validation has seen of some transactions. */
  ghost predicate Sees(seen: Seen, ts: seq<Transaction>)
  {
    && (forall id :: id in seen.ids <==> exists t :: t in ts && t.body.id == id)
    && (forall n :: n in seen.sequences <==> exists t :: t in ts && t.body.sequence == n)
    && (forall n :: n in seen.commits <==> exists t :: t in ts && t.body.commit == Some(n))
  }

  lemma SeesMore(seen: Seen, ts: seq<Transaction>, t: Transaction)
    requires Sees(seen, ts)
    ensures Sees(After(t, seen), ts + [t])
  {
    var more := ts + [t];
    assert forall u :: u in more <==> u in ts || u == t;
  }

  lemma {:induction false} ScanSnoc(ts: seq<Transaction>, t: Transaction, seen: Seen)
    ensures Scan(ts, seen).Ok? ==> Scan(ts + [t], seen) == Scan([t], Scan(ts, seen).value)
    decreases |ts|
  {
    hide TransactionFault;
    if ts != [] && TransactionFault(ts[0], seen) == None {
      assert (ts + [t])[1..] == ts[1..] + [t];
      ScanSnoc(ts[1..], t, After(ts[0], seen));
    } else if ts == [] {
      assert ts + [t] == [t];
    }
  }

  lemma HeadCause(ts: seq<Transaction>, k: nat, seen: Seen)
    requires k < |ts| && Sees(seen, ts[..k]) && TransactionFault(ts[k], seen).Some?
    ensures TransactionCause(ts, k, TransactionFault(ts[k], seen).value)
  {
    hide Sees;
    SeenAre(ts, k, seen);
  }

  lemma SeenAre(ts: seq<Transaction>, k: nat, seen: Seen)
    requires k < |ts| && Sees(seen, ts[..k])
    ensures ts[k].body.id in seen.ids <==> IdUsed(ts, k)
    ensures ts[k].body.sequence in seen.sequences <==> SequenceUsed(ts, k)
    ensures ts[k].body.commit.Some? ==> (ts[k].body.commit.value in seen.commits <==> OrdinalUsed(ts, k))
  {
    assert forall j :: 0 <= j < k ==> ts[..k][j] == ts[j] && ts[j] in ts[..k];
    assert forall t :: t in ts[..k] ==> exists j :: 0 <= j < k && ts[j] == t;
    if ts[k].body.commit.Some? { OrdinalSeen(ts, k, seen, ts[k].body.commit.value); }
  }

  lemma OrdinalSeen(ts: seq<Transaction>, k: nat, seen: Seen, n: int)
    requires k < |ts| && Sees(seen, ts[..k]) && ts[k].body.commit == Some(n)
    ensures n in seen.commits <==> OrdinalUsed(ts, k)
  {
    if n in seen.commits {
      var t :| t in ts[..k] && t.body.commit == Some(n);
      assert OrdinalUsed(ts, k);
    }
  }

  lemma {:induction false} ScanCause(ts: seq<Transaction>, k: nat, seen: Seen)
    requires k <= |ts| && Sees(seen, ts[..k]) && Scan(ts[..k], NOTHING) == Ok(seen) && Scan(ts[k..], seen).Err?
    ensures FirstRefused(ts, Scan(ts[k..], seen).code)
    decreases |ts| - k
  {
    hide TransactionFault, Plannable, Sees, After, TransactionCause;
    assert ts[k..][0] == ts[k] && ts[k..][1..] == ts[k + 1..];
    if TransactionFault(ts[k], seen).Some? {
      HeadCause(ts, k, seen);
      ScanTakes(ts[..k], NOTHING);
    } else {
      assert ts[..k + 1] == ts[..k] + [ts[k]] && [ts[k]][1..] == [];
      ScanSnoc(ts[..k], ts[k], NOTHING);
      SeesMore(seen, ts[..k], ts[k]);
      ScanCause(ts, k + 1, After(ts[k], seen));
    }
  }

  /** Every workload that is refused has the cause its code names. */
  lemma WorkloadRefused(spec: Workload)
    requires Fault(spec).Some?
    ensures WorkloadCause(spec, Fault(spec).value)
  {
    hide FirstRefused, TransactionFault, Plannable, UpTo, Scheduled, OneSchedule, Ordinals;
    var ts := spec.material.transactions;
    ScanTakes(ts, NOTHING);
    if Scan(ts, NOTHING).Ok? {
      ScanUnseen(ts, NOTHING);
    } else {
      assert ts[..0] == [] && ts[0..] == ts;
      ScanCause(ts, 0, NOTHING);
      RefusalsOnly(ts);
    }
    ScheduleMeans(spec.material.schedules);
  }

  lemma RefusalsOnly(ts: seq<Transaction>)
    ensures forall code :: FirstRefused(ts, code) ==>
              !code.CBSRC003_UNKNOWN_WORKLOAD_VERSION? && !code.CBSRC004_WORKLOAD_ID_MISMATCH?
              && !code.CBSRC010_INVALID_CONCURRENCY_SCHEDULE?
  {
    hide IdUsed, SequenceUsed, OrdinalUsed, Plannable;
  }

  lemma ScheduleMeans(schedules: seq<Schedule>)
    ensures Scheduled(schedules) <==> OneSchedule(schedules)
  {
    if |schedules| == 1 {
      assert forall w :: w in Elements(schedules[0].transactions) <==> w in schedules[0].transactions;
    }
  }

  /**
  What a replay through a phase reports: exactly the committed transactions of the phase
  in the order of their ordinals, exactly the aborted ones, and the rows after the
  committed ones.
  */
  lemma ReplayReports(spec: Workload, phase: Phase)
    requires Replay(spec, phase).Ok?
    ensures var r, ts := Replay(spec, phase).value, spec.material.transactions;
      && (forall t :: t in r.committed <==> t in ts && t.body.outcome == "COMMIT" && Reached(t, phase))
      && (forall t :: t in r.aborted <==> t in ts && t.body.outcome == "ABORT" && Reached(t, phase))
      && Rising(r.committed)
      && ReplayAll(map[], r.committed) == Ok(r.rows)
  {
    hide Fault, Eligible, Filtered, ReplayAll, WellPlanned, Commits, Reached, Rising;
    var ts := spec.material.transactions;
    AcceptedIsWellPlanned(spec);
    PlannedOutcomes(ts);
    EligibleAre(spec, phase);
    FilteredMeans(Eligible(spec, phase), Commits);
    FilteredMeans(Eligible(spec, phase), t => !Commits(t));
    forall t ensures Commits(t) <==> t.body.outcome != "ABORT" { CommitsMeans(t); }
    ReplayCommitted(map[], Eligible(spec, phase));
    CommittedRise(spec, phase);
  }

  lemma CommitsMeans(t: Transaction)
    ensures Commits(t) <==> t.body.outcome != "ABORT"
  {
  }

  lemma EligibleAre(spec: Workload, phase: Phase)
    ensures forall t :: t in Eligible(spec, phase) <==> t in spec.material.transactions && Reached(t, phase)
  {
    hide CommitKey, Filtered;
    var within := t => Within(t, phase);
    FilteredMeans(spec.material.transactions, within);
    SortFacts(Filtered(spec.material.transactions, within), CommitKey);
  }

  /** The ordinals rise strictly. */
  ghost predicate Rising(ts: seq<Transaction>)
  {
    forall i, j :: 0 <= i < j < |ts| ==>
      ts[i].body.commit.Some? && ts[j].body.commit.Some? && ts[i].body.commit.value < ts[j].body.commit.value
  }

  predicate Reached(t: Transaction, phase: Phase) { phase.PRE_BOUNDARY? ==> t.body.phase == "PRE_BOUNDARY" }

  lemma PlannedOutcomes(ts: seq<Transaction>)
    requires WellPlanned(ts)
    ensures forall t :: t in ts ==> (t.body.outcome == "COMMIT" || t.body.outcome == "ABORT")
  {
    forall t | t in ts ensures t.body.outcome == "COMMIT" || t.body.outcome == "ABORT" { assert Planned(t); }
  }

  lemma CommittedRise(spec: Workload, phase: Phase)
    requires Fault(spec) == None
    ensures Rising(Filtered(Eligible(spec, phase), Commits))
  {
    hide Fault, Eligible, Filtered;
    var c, ts := Filtered(Eligible(spec, phase), Commits), spec.material.transactions;
    AcceptedIsWellPlanned(spec);
    CommittedIsSorted(spec, phase);
    forall i, j | 0 <= i < j < |c|
      ensures c[i].body.commit.Some? && c[j].body.commit.Some? && c[i].body.commit.value < c[j].body.commit.value
    {
      assert c[i] in c && c[j] in c && Planned(c[i]) && Planned(c[j]);
      assert Le(CommitKey(c[i]), CommitKey(c[j]));
      OnlyOnce(ts, c, i, j);
      OrdinalsTellApart(ts, c);
    }
  }

  /** An element listed twice is in the workload twice, where ids are not repeated. */
  lemma OnlyOnce(ts: seq<Transaction>, c: seq<Transaction>, i: nat, j: nat)
    requires WellPlanned(ts) && i < j < |c| && forall t :: t in c ==> multiset(c)[t] <= multiset(ts)[t]
    ensures c[i] != c[j]
  {
    if c[i] == c[j] {
      var t := c[i];
      assert c == c[..i] + [t] + c[i + 1..j] + [t] + c[j + 1..];
      assert multiset(c)[t] >= 2;
      TwiceListed(ts, t);
    }
  }

  lemma {:induction false} TwiceListed(ts: seq<Transaction>, t: Transaction)
    requires multiset(ts)[t] >= 2
    ensures exists i, j :: 0 <= i < j < |ts| && ts[i] == t && ts[j] == t
  {
    var tail := ts[1..];
    assert ts == [ts[0]] + tail;
    if ts[0] == t {
      assert t in tail;
      var j :| 0 <= j < |tail| && tail[j] == t;
      assert ts[j + 1] == t;
    } else {
      TwiceListed(tail, t);
      var i, j :| 0 <= i < j < |tail| && tail[i] == t && tail[j] == t;
      assert ts[i + 1] == t && ts[j + 1] == t;
    }
  }
}
