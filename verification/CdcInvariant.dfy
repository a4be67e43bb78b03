/**
What every run of the apply coordinator keeps: any assembled plans, retried in any
order, each call killed after any durable write.
*/
module CdcInvariant {
  import opened Common
  import opened Sorting
  import opened Events
  import opened CdcApply
  import opened CdcConvergence
  import T = IcebergCdc
  import C = CdcControl

  function LogOf(w: World, name: string): seq<T.Snapshot> { T.TableOf(w.tables, name).log }

  /** Each commit token labels at most one snapshot of a table. */
  ghost predicate UniqueTokens(w: World)
  {
    forall name, i, j :: 0 <= i < j < |LogOf(w, name)| ==> LogOf(w, name)[i].token != LogOf(w, name)[j].token
  }

  ghost predicate ClaimedAs(w: World, id: C.TxId, digest: Digest)
  {
    && id in w.control.transactions && w.control.transactions[id].digest == digest
    && digest.TransactionInput?
  }

  /** A CDC snapshot carries the digests of the claimed transaction it belongs to. */
  ghost predicate LabelOk(w: World, name: string, s: T.Snapshot)
  {
    s.token.CommitToken? ==>
      && s.token == CommitToken(s.gen, s.tx, name, s.input)
      && ClaimedAs(w, (s.gen, s.tx), s.txDigest)
      && s.input.TableInput? && Projections(s.input.events) == Slice(s.txDigest.projections, name)
  }

  /** A receipt's token labels a snapshot with matching transaction and table digests. */
  ghost predicate ReceiptOk(w: World, id: C.ReceiptId)
    requires id in w.control.receipts
  {
    var r := w.control.receipts[id];
    && ClaimedAs(w, (id.0, id.1), r.txDigest)
    && id.2 in TablesIn(r.txDigest.projections)
    && r.input.TableInput? && Projections(r.input.events) == Slice(r.txDigest.projections, id.2)
    && r.token == CommitToken(id.0, id.1, id.2, r.input)
    && r.snapshot < |LogOf(w, id.2)|
    && var s := LogOf(w, id.2)[r.snapshot]; s.token == r.token && s.txDigest == r.txDigest && s.input == r.input
  }

  /** A checkpointed transaction has a receipt for each table and a tombstone for each delete. */
  ghost predicate TransactionOk(w: World, id: C.TxId)
    requires id in w.control.transactions
  {
    var t := w.control.transactions[id];
    && t.digest.TransactionInput?
    && Lists(t.tables, TablesIn(t.digest.projections))
    && (t.state.CHECKPOINTED? ==>
          && id.0 in w.control.checkpoints
          && (forall name :: name in t.tables ==> (id.0, id.1, name) in w.control.receipts)
          && (forall e :: e in t.digest.projections && e.change.Delete? ==> (id.0, e.id) in w.control.tombstones))
  }

  /** A tombstone records a delete of a transaction whose table has a receipt under the same token. */
  ghost predicate TombstoneOk(w: World, id: C.TxId)
    requires id in w.control.tombstones
  {
    var ts := w.control.tombstones[id];
    && (id.0, ts.tx, ts.table) in w.control.receipts
    && w.control.receipts[(id.0, ts.tx, ts.table)].token == ts.token
    && var digest := w.control.receipts[(id.0, ts.tx, ts.table)].txDigest;
    && digest.TransactionInput?
    && exists e :: e in digest.projections && e.change.Delete? && e.id == id.1
                && ts == C.Tombstone(ts.tx, e.table, e.key, e.position, BeforeImage(e.table, e.change.before), ts.token)
  }

  ghost predicate LabelsOk(w: World)
  {
    forall name, i :: 0 <= i < |LogOf(w, name)| ==> LabelOk(w, name, LogOf(w, name)[i])
  }

  ghost predicate ReceiptsOk(w: World) { forall id :: id in w.control.receipts ==> ReceiptOk(w, id) }

  ghost predicate TransactionsOk(w: World) { forall id :: id in w.control.transactions ==> TransactionOk(w, id) }

  ghost predicate TombstonesOk(w: World) { forall id :: id in w.control.tombstones ==> TombstoneOk(w, id) }

  ghost predicate Inv(w: World)
  {
    UniqueTokens(w) && LabelsOk(w) && ReceiptsOk(w) && TransactionsOk(w) && TombstonesOk(w)
  }

  /** Nothing durable is lost or altered, except that a transaction may become checkpointed. */
  ghost predicate Preserves(w: World, w': World)
  {
    && (forall name :: LogOf(w, name) <= LogOf(w', name))
    && (forall id :: id in w.control.receipts ==>
          id in w'.control.receipts && w'.control.receipts[id] == w.control.receipts[id])
    && (forall id :: id in w.control.transactions ==>
          id in w'.control.transactions
          && w'.control.transactions[id].(state := w.control.transactions[id].state) == w.control.transactions[id])
    && (forall id :: id in w.control.tombstones ==>
          id in w'.control.tombstones && w'.control.tombstones[id] == w.control.tombstones[id])
    && w.control.checkpoints.Keys <= w'.control.checkpoints.Keys
  }

  lemma {:induction false} LabelsStay(w: World, w': World)
    requires LabelsOk(w) && Preserves(w, w')
    requires forall name, i :: |LogOf(w, name)| <= i < |LogOf(w', name)| ==> LabelOk(w', name, LogOf(w', name)[i])
    ensures LabelsOk(w')
  {
    forall name, i | 0 <= i < |LogOf(w', name)| ensures LabelOk(w', name, LogOf(w', name)[i]) {
      assert LogOf(w, name) <= LogOf(w', name);
      if i < |LogOf(w, name)| {
        assert LabelOk(w, name, LogOf(w, name)[i]) && LogOf(w', name)[i] == LogOf(w, name)[i];
      }
    }
  }

  lemma {:induction false} ReceiptsStay(w: World, w': World)
    requires ReceiptsOk(w) && Preserves(w, w')
    requires forall id :: id in w'.control.receipts && id !in w.control.receipts ==> ReceiptOk(w', id)
    ensures ReceiptsOk(w')
  {
    forall id | id in w'.control.receipts ensures ReceiptOk(w', id) {
      if id in w.control.receipts { assert ReceiptOk(w, id) && LogOf(w, id.2) <= LogOf(w', id.2); }
    }
  }

  lemma {:induction false} TransactionsStay(w: World, w': World)
    requires TransactionsOk(w) && Preserves(w, w')
    requires forall id :: id in w'.control.transactions ==>
      (id in w.control.transactions && w'.control.transactions[id] == w.control.transactions[id])
      || TransactionOk(w', id)
    ensures TransactionsOk(w')
  {
    forall id | id in w'.control.transactions ensures TransactionOk(w', id) {
      if id in w.control.transactions { assert TransactionOk(w, id); }
    }
  }

  lemma {:induction false} TombstonesStay(w: World, w': World)
    requires TombstonesOk(w) && Preserves(w, w')
    requires forall id :: id in w'.control.tombstones && id !in w.control.tombstones ==> TombstoneOk(w', id)
    ensures TombstonesOk(w')
  {
    forall id | id in w'.control.tombstones ensures TombstoneOk(w', id) {
      if id in w.control.tombstones { assert TombstoneOk(w, id); }
    }
  }

  /** The invariant holds again once it holds of what is new. */
  lemma {:induction false} StepKeeps(w: World, w': World)
    requires Inv(w) && Preserves(w, w') && UniqueTokens(w')
    requires forall name, i :: |LogOf(w, name)| <= i < |LogOf(w', name)| ==> LabelOk(w', name, LogOf(w', name)[i])
    requires forall id :: id in w'.control.receipts && id !in w.control.receipts ==> ReceiptOk(w', id)
    requires forall id :: id in w'.control.transactions ==>
      (id in w.control.transactions && w'.control.transactions[id] == w.control.transactions[id])
      || TransactionOk(w', id)
    requires forall id :: id in w'.control.tombstones && id !in w.control.tombstones ==> TombstoneOk(w', id)
    ensures Inv(w')
  {
    hide LabelsOk, ReceiptsOk, TransactionsOk, TombstonesOk, LabelOk, ReceiptOk, TransactionOk;
    hide TombstoneOk, UniqueTokens;
    hide Preserves;
    LabelsStay(w, w');
    ReceiptsStay(w, w');
    TransactionsStay(w, w');
    TombstonesStay(w, w');
  }

  /** A change of the control store leaves the logs alone. */
  lemma {:induction false} SameTables(w: World, w': World)
    requires w'.tables == w.tables
    ensures forall name :: LogOf(w', name) == LogOf(w, name)
    ensures UniqueTokens(w) ==> UniqueTokens(w')
  {
    forall name ensures LogOf(w', name) == LogOf(w, name) {}
    if UniqueTokens(w) {
      forall name, i, j | 0 <= i < j < |LogOf(w', name)| ensures LogOf(w', name)[i].token != LogOf(w', name)[j].token {
        assert LogOf(w', name) == LogOf(w, name);
      }
    }
  }

  /** A fresh control store beside tables that no CDC transaction has touched. */
  ghost predicate Start(w: World)
  {
    && w.control == C.EMPTY
    && UniqueTokens(w)
    && forall name, i :: 0 <= i < |LogOf(w, name)| ==> !LogOf(w, name)[i].token.CommitToken?
  }

  ghost predicate ClaimedBy(w: World, plan: Plan)
  {
    && Assembled(plan)
    && C.IdOf(plan) in w.control.transactions
    && w.control.transactions[C.IdOf(plan)].digest == plan.digest
    && plan.gen in w.control.checkpoints
  }

  lemma {:induction false} VisitsAreTables(plan: Plan)
    requires Assembled(plan)
    ensures plan.Visits() == plan.tables
    ensures forall name :: name in plan.tables <==> name in TablesOf(plan.events)
  {
    SortedSetLists(plan.tables);
    ListsUnique(plan.Visits(), plan.tables, Elements(plan.tables));
    assert forall name :: name in plan.tables <==> name in Elements(plan.tables);
  }

  lemma {:induction false} ClaimKeeps(w: World, plan: Plan)
    requires Inv(w) && Assembled(plan) && plan.gen in w.control.checkpoints
    ensures var r := C.Claim(w.control, plan);
      r.Ok? ==> Inv(w.(control := r.control)) && ClaimedBy(w.(control := r.control), plan)
  {
    hide LabelsOk, ReceiptsOk, TransactionsOk, TombstonesOk;
    hide LabelOk, ReceiptOk, TombstoneOk, UniqueTokens, EventsFor, Projections;
    var r := C.Claim(w.control, plan);
    if r.Ok? {
      TablesOfProjections(plan.events);
      SameTables(w, w.(control := r.control));
      StepKeeps(w, w.(control := r.control));
    }
  }

  lemma {:induction false} InitializeKeeps(w: World, gen: string, frontier: string)
    requires Inv(w)
    ensures var r := C.InitializeCheckpoint(w.control, gen, frontier);
      r.Ok? ==> Inv(w.(control := r.control)) && gen in r.control.checkpoints
  {
    hide LabelsOk, ReceiptsOk, TransactionsOk, TombstonesOk;
    hide LabelOk, ReceiptOk, TombstoneOk, TransactionOk, UniqueTokens, EventsFor;
    var r := C.InitializeCheckpoint(w.control, gen, frontier);
    if r.Ok? {
      SameTables(w, w.(control := r.control));
      StepKeeps(w, w.(control := r.control));
    }
  }

  lemma {:induction false} LabelFits(w: World, plan: Plan, name: string, i: nat)
    requires Inv(w) && ClaimedBy(w, plan)
    requires i < |LogOf(w, name)| && LogOf(w, name)[i].token == plan.Token(name)
    ensures var s := LogOf(w, name)[i];
      s.txDigest == plan.digest && s.input == plan.Input(name) && s.gen == plan.gen
  {
    assert LabelOk(w, name, LogOf(w, name)[i]);
  }

  /** Only the plan's own events can make a table commit fail. */
  predicate EventFault(code: T.Code)
  {
    code in {T.CB24I001_MULTI_ROW_EFFECT, T.CB24I002_DUPLICATE_INSERT, T.CB24I003_TARGET_ROW_MISSING,
             T.CB24I005_TARGET_BEFORE_IMAGE_MISMATCH, T.CB24I006_COMMIT_METADATA_FAILURE}
  }

  lemma {:induction false} CheckFaults(rows: T.Bag, events: seq<Event>)
    ensures var r := T.CheckPreconditions(rows, events); r.Some? ==> EventFault(r.value)
  {
    if events != [] { CheckFaults(rows, events[1..]); }
  }

  lemma {:induction false} CommitKeeps(w: World, plan: Plan, name: string, lease: Lease)
    requires Inv(w) && ClaimedBy(w, plan) && name in plan.tables
    ensures var p := CommitStep(w, plan, name, lease);
      && p.State().control == w.control
      && Inv(p.State())
      && (p.Halt? ==> p.call.Killed? || p.call.Raised?)
      && (p.Halt? && p.call.Raised? ==> p.call.code.Target? && EventFault(p.call.code.target))
  {
    hide LabelsOk, ReceiptsOk, TransactionsOk, TombstonesOk, UniqueTokens, EventsFor, Assembled, EventFault;
    var p := CommitStep(w, plan, name, lease);
    var t := T.TableOf(w.tables, name);
    var found := T.SnapshotForToken(t.log, plan.Token(name));
    if found.Some? {
      LabelFits(w, plan, name, found.value);
    } else {
      FaultOfApply(t, plan, name);
      if p.Continue? {
        assert LogOf(p.world, name) == t.log + [T.SnapshotOf(plan, name)];
        AppendKeeps(w, plan, name, p.world);
      }
    }
  }

  lemma {:induction false} FaultOfApply(t: T.Table, plan: Plan, name: string)
    requires Assembled(plan) && name in plan.tables
    requires T.SnapshotForToken(t.log, plan.Token(name)) == None
    ensures match T.ApplyTable(t, plan, name)
            case Rejected(code) => EventFault(code)
            case Committed(t', _, _) => t'.log == t.log + [T.SnapshotOf(plan, name)]
  {
    hide T.CheckPreconditions, T.Merge, T.MergeAmbiguous, Projections;
    VisitsAreTables(plan);
    var e :| e in plan.events && e.table == name;
    assert e in EventsFor(plan.events, name);
    CheckFaults(t.rows, EventsFor(plan.events, name));
  }

  lemma {:induction false} NewLabelOk(w: World, plan: Plan, name: string)
    requires ClaimedBy(w, plan)
    ensures LabelOk(w, name, T.SnapshotOf(plan, name))
  {
    hide EventsFor, Slice, Projections;
    SliceOfProjections(plan.events, name);
  }

  lemma {:induction false} AppendKeeps(w: World, plan: Plan, name: string, w': World)
    requires Inv(w) && ClaimedBy(w, plan)
    requires T.SnapshotForToken(LogOf(w, name), plan.Token(name)) == None
    requires w'.control == w.control
    requires LogOf(w', name) == LogOf(w, name) + [T.SnapshotOf(plan, name)]
    requires forall other :: other != name ==> LogOf(w', other) == LogOf(w, other)
    ensures Inv(w')
  {
    hide LabelsOk, ReceiptsOk, TransactionsOk, TombstonesOk, LabelOk, ReceiptOk, TransactionOk, TombstoneOk;
    hide EventsFor, Projections, Assembled, LogOf;
    NewLabelOk(w', plan, name);
    assert UniqueTokens(w');
    StepKeeps(w, w');
  }

  /** UNIQUE (generation_id, commit_token) can never fire. */
  lemma {:induction false} TokenIsFree(w: World, plan: Plan, name: string)
    requires Inv(w) && ReceiptIdOf(plan, name) !in w.control.receipts
    ensures !C.TokenTaken(w.control, plan.gen, plan.Token(name))
  {
    forall id | id in w.control.receipts ensures w.control.receipts[id].token != plan.Token(name) {
      assert ReceiptOk(w, id);
    }
  }

  lemma {:induction false} NewReceiptOk(w: World, plan: Plan, name: string, w': World)
    requires Inv(w) && ClaimedBy(w, plan) && name in plan.tables
    requires T.SnapshotForToken(LogOf(w, name), plan.Token(name)).Some?
    requires w'.tables == w.tables && w'.control.transactions == w.control.transactions
    requires ReceiptIdOf(plan, name) in w'.control.receipts
    requires w'.control.receipts[ReceiptIdOf(plan, name)] == ReceiptOf(w, plan, name)
    ensures ReceiptOk(w', ReceiptIdOf(plan, name))
  {
    hide LabelsOk, ReceiptsOk, TransactionsOk, TombstonesOk, UniqueTokens, Slice, EventsFor, Projections;
    VisitsAreTables(plan);
    TablesOfProjections(plan.events);
    SliceOfProjections(plan.events, name);
    LabelFits(w, plan, name, ReceiptOf(w, plan, name).snapshot);
  }

  lemma {:induction false} ReceiptKeeps(w: World, plan: Plan, name: string, lease: Lease)
    requires Inv(w) && ClaimedBy(w, plan) && name in plan.tables
    requires T.SnapshotForToken(LogOf(w, name), plan.Token(name)).Some?
    requires ReceiptIdOf(plan, name) !in w.control.receipts
    ensures var p := ReceiptStep(w, plan, name, lease);
      && (p.Halt? ==> p.call.Killed?)
      && Inv(p.State())
  {
    hide LabelsOk, ReceiptsOk, TransactionsOk, TombstonesOk, UniqueTokens, ReceiptOk, EventsFor;
    var p := ReceiptStep(w, plan, name, lease);
    TokenIsFree(w, plan, name);
    if p.Continue? {
      ReceiptStepGrows(w, plan, name, lease);
      NewReceiptOk(w, plan, name, p.world);
      AddReceiptKeeps(w, ReceiptIdOf(plan, name), ReceiptOf(w, plan, name), p.world);
    }
  }

  lemma {:induction false} AddReceiptKeeps(w: World, id: C.ReceiptId, receipt: C.Receipt, w': World)
    requires Inv(w) && id !in w.control.receipts
    requires w' == w.(control := w.control.(receipts := w.control.receipts[id := receipt]))
    requires ReceiptOk(w', id)
    ensures Inv(w')
  {
    hide LabelOk, TransactionOk, UniqueTokens, ReceiptOk;
    SameTables(w, w');
    StepKeeps(w, w');
  }

  /** What can stop a visit: the plan's events, or a receipt of other ingestion stamps. */
  predicate VisitFault(code: Code)
  {
    (code.Target? && EventFault(code.target)) || code == CB24P002_RECEIPT_MISMATCH
  }

  lemma {:induction false} VisitKeeps(w: World, plan: Plan, name: string, lease: Lease)
    requires Inv(w) && ClaimedBy(w, plan) && name in plan.tables
    ensures var p := VisitTable(w, plan, name, lease);
      && Inv(p.State()) && ClaimedBy(p.State(), plan)
      && (p.Halt? ==> p.call.Killed? || p.call.Raised?)
      && (p.Halt? && p.call.Raised? ==> VisitFault(p.call.code))
  {
    hide LabelsOk, ReceiptsOk, TransactionsOk, TombstonesOk, UniqueTokens, CommitStep, ReceiptStep;
    hide Assembled, EventFault;
    VisitGrows(w, plan, name, lease);
    if ReceiptIdOf(plan, name) !in w.control.receipts {
      CommitKeeps(w, plan, name, lease);
      CommitLeavesToken(w, plan, name, lease);
      var commit := CommitStep(w, plan, name, lease);
      if commit.Continue? { ReceiptKeeps(commit.world, plan, name, commit.lease); }
    }
  }

  lemma {:induction false} VisitsKeep(w: World, plan: Plan, names: seq<string>, lease: Lease)
    requires Inv(w) && ClaimedBy(w, plan) && forall name :: name in names ==> name in plan.tables
    ensures var p := VisitTables(w, plan, names, lease);
      && Inv(p.State()) && ClaimedBy(p.State(), plan)
      && (p.Halt? ==> p.call.Killed? || p.call.Raised?)
      && (p.Halt? && p.call.Raised? ==> VisitFault(p.call.code))
    decreases |names|
  {
    hide Inv, ClaimedBy, VisitTable, VisitFault;
    if names != [] {
      VisitKeeps(w, plan, names[0], lease);
      var p := VisitTable(w, plan, names[0], lease);
      if p.Continue? { VisitsKeep(p.world, plan, names[1..], p.lease); }
    }
  }

  lemma {:induction false} BuryAdds(t: map<C.TxId, C.Tombstone>, plan: Plan, events: seq<Event>,
                                    tokens: map<string, Digest>, id: C.TxId)
    requires forall e :: e in events && e.change.Delete? ==> e.table in tokens
    requires var r := C.Bury(t, plan, events, tokens); id in r && id !in t
    ensures id.0 == plan.gen
    ensures exists e :: e in events && e.change.Delete? && e.id == id.1
                     && C.Bury(t, plan, events, tokens)[id] == C.TombstoneRow(plan, e, tokens[e.table])
  {
    var last := events[|events| - 1];
    var front := events[..|events| - 1];
    assert events == front + [last];
    var prior := C.Bury(t, plan, front, tokens);
    if id in prior {
      BuryAdds(t, plan, front, tokens, id);
      var e :| e in front && e.change.Delete? && e.id == id.1 && prior[id] == C.TombstoneRow(plan, e, tokens[e.table]);
      assert e in events;
    } else {
      assert last in events;
    }
  }

  lemma {:induction false} DeletesHaveTokens(plan: Plan)
    requires Assembled(plan)
    ensures forall e :: e in plan.events ==> e.table in Tokens(plan)
  {
    VisitsAreTables(plan);
    forall e | e in plan.events ensures e.table in Tokens(plan) { assert e.table in TablesOf(plan.events); }
  }

  lemma {:induction false} BuryKeeps(w: World, plan: Plan)
    requires Inv(w) && ClaimedBy(w, plan)
    requires forall name :: name in plan.tables ==> Receipted(w, plan, name)
    ensures var r := C.RecordTombstones(w.control, plan, Tokens(plan));
      && r.Ok?
      && r.control == w.control.(tombstones := r.control.tombstones)
      && Inv(w.(control := r.control))
      && forall e :: e in plan.events && e.change.Delete? ==> (plan.gen, e.id) in r.control.tombstones
  {
    hide LabelsOk, ReceiptsOk, TransactionsOk, TombstonesOk, UniqueTokens, LabelOk, ReceiptOk;
    hide TransactionOk, TombstoneOk;
    hide Receipted, Assembled, Tokens;
    DeletesHaveTokens(plan);
    var r := C.RecordTombstones(w.control, plan, Tokens(plan));
    BuryContains(w.control.tombstones, plan, plan.events, Tokens(plan));
    var w' := w.(control := r.control);
    SameTables(w, w');
    forall id | id in w'.control.tombstones && id !in w.control.tombstones ensures TombstoneOk(w', id) {
      NewTombstoneOk(w, plan, w', id);
    }
    StepKeeps(w, w');
  }

  lemma {:induction false} NewTombstoneOk(w: World, plan: Plan, w': World, id: C.TxId)
    requires Inv(w) && ClaimedBy(w, plan)
    requires forall name :: name in plan.tables ==> Receipted(w, plan, name)
    requires forall e :: e in plan.events ==> e.table in Tokens(plan)
    requires w'.control == w.control.(tombstones := C.Bury(w.control.tombstones, plan, plan.events, Tokens(plan)))
    requires id in w'.control.tombstones && id !in w.control.tombstones
    ensures TombstoneOk(w', id)
  {
    hide LabelsOk, TransactionsOk, TombstonesOk, UniqueTokens, ReceiptOk, EventsFor, Projections, C.Bury, Receipted;
    BuryAdds(w.control.tombstones, plan, plan.events, Tokens(plan), id);
    var e :| e in plan.events && e.change.Delete? && e.id == id.1
      && w'.control.tombstones[id] == C.TombstoneRow(plan, e, Tokens(plan)[e.table]);
    ProjectionIsListed(plan.events, e);
    ReceiptIsOwn(w, plan, e.table);
    assert e.Projected() in plan.digest.projections;
  }

  /** A receipt of the claimed transaction carries its digest. */
  lemma {:induction false} ReceiptIsOwn(w: World, plan: Plan, name: string)
    requires ReceiptsOk(w) && ClaimedBy(w, plan) && Receipted(w, plan, name)
    ensures var id := ReceiptIdOf(plan, name);
      id in w.control.receipts && w.control.receipts[id].token == plan.Token(name)
      && w.control.receipts[id].txDigest == plan.digest
  {
    hide EventsFor, Projections, Slice;
    assert ReceiptOk(w, ReceiptIdOf(plan, name));
  }

  lemma {:induction false} ReceiptIsOfTable(w: World, plan: Plan, id: C.ReceiptId)
    requires ReceiptsOk(w) && ClaimedBy(w, plan) && id in w.control.receipts && (id.0, id.1) == C.IdOf(plan)
    ensures id.2 in TablesOf(plan.events)
  {
    hide EventsFor, Projections, Slice;
    assert ReceiptOk(w, id);
    TablesOfProjections(plan.events);
  }

  lemma {:induction false} ReceiptsAreComplete(w: World, plan: Plan)
    requires Inv(w) && ClaimedBy(w, plan)
    requires forall name :: name in plan.tables ==> Receipted(w, plan, name)
    ensures Lists(plan.tables, C.ReceiptTables(w.control, C.IdOf(plan)))
  {
    hide LabelsOk, ReceiptsOk, TransactionsOk, TombstonesOk, UniqueTokens, EventsFor, Projections;
    VisitsAreTables(plan);
    var found := C.ReceiptTables(w.control, C.IdOf(plan));
    forall name ensures name in found <==> name in TablesOf(plan.events) {
      if name in found {
        var id :| id in w.control.receipts && (id.0, id.1) == C.IdOf(plan) && id.2 == name;
        ReceiptIsOfTable(w, plan, id);
      }
      if name in TablesOf(plan.events) {
        assert Receipted(w, plan, name);
        var id := ReceiptIdOf(plan, name);
        assert id in w.control.receipts && (id.0, id.1) == C.IdOf(plan) && id.2 == name;
      }
    }
  }

  lemma {:induction false} DeletesAreBuried(w: World, plan: Plan)
    requires forall e :: e in plan.events && e.change.Delete? ==> (plan.gen, e.id) in w.control.tombstones
    ensures forall p :: p in Projections(plan.events) && p.change.Delete? ==> (plan.gen, p.id) in w.control.tombstones
  {
    var all := Projections(plan.events);
    forall p | p in all && p.change.Delete? ensures (plan.gen, p.id) in w.control.tombstones {
      var i :| 0 <= i < |all| && all[i] == p;
      assert plan.events[i] in plan.events;
    }
  }

  lemma {:induction false} CheckpointedOk(w: World, plan: Plan, w': World)
    requires TransactionsOk(w) && ClaimedBy(w, plan) && w' == w.(control := C.Finalized(w.control, plan))
    requires forall name :: name in plan.tables ==> Receipted(w, plan, name)
    requires forall e :: e in plan.events && e.change.Delete? ==> (plan.gen, e.id) in w.control.tombstones
    ensures TransactionOk(w', C.IdOf(plan))
  {
    hide EventsFor, Projections;
    var id := C.IdOf(plan);
    assert TransactionOk(w, id);
    DeletesAreBuried(w, plan);
    TablesOfProjections(plan.events);
    ListsUnique(w.control.transactions[id].tables, plan.tables, TablesOf(plan.events));
    forall name | name in plan.tables ensures (id.0, id.1, name) in w'.control.receipts {
      assert Receipted(w, plan, name);
    }
  }

  lemma {:induction false} FinalizedKeeps(w: World, plan: Plan)
    requires Inv(w) && ClaimedBy(w, plan)
    requires forall name :: name in plan.tables ==> Receipted(w, plan, name)
    requires forall e :: e in plan.events && e.change.Delete? ==> (plan.gen, e.id) in w.control.tombstones
    ensures Inv(w.(control := C.Finalized(w.control, plan)))
  {
    hide LabelsOk, ReceiptsOk, TransactionsOk, TombstonesOk, UniqueTokens, LabelOk, ReceiptOk;
    hide TransactionOk, TombstoneOk;
    hide Receipted, Assembled;
    var w' := w.(control := C.Finalized(w.control, plan));
    SameTables(w, w');
    CheckpointedOk(w, plan, w');
    StepKeeps(w, w');
  }

  /** The only error of the last part: another transaction has moved the checkpoint. */
  lemma {:induction false} FinishKeeps(w: World, plan: Plan, expected: nat, lease: Lease)
    requires Inv(w) && ClaimedBy(w, plan) && expected == w.control.checkpoints[plan.gen].revision
    requires forall name :: name in plan.tables ==> Receipted(w, plan, name)
    ensures var call := Finish(w, plan, expected, lease);
      && Inv(call.world)
      && (call.Raised? ==> call.code == Control(C.CB24C008_FRONTIER_MISMATCH))
  {
    hide Inv, C.RecordTombstones, Assembled, C.ReceiptTables, C.Finalized, Lists;
    if !lease.Spent() {
      BuryKeeps(w, plan);
      var w1 := w.(control := C.RecordTombstones(w.control, plan, Tokens(plan)).control);
      assert forall name :: name in plan.tables ==> Receipted(w1, plan, name);
      ReceiptsAreComplete(w1, plan);
      FinalizedKeeps(w1, plan);
    }
  }

  /** A fault of the plan against the durable state; recovery itself never conflicts. */
  predicate PlanFault(code: Code)
  {
    || code == CB24P001_GENERATION_NOT_CDC_APPLYING
    || code == Control(C.CB24C001_CHECKPOINT_CONFLICT)
    || code == Control(C.CB24C002_TRANSACTION_REPLAY_CONFLICT)
    || code == Control(C.CB24C008_FRONTIER_MISMATCH)
    || VisitFault(code)
  }

  lemma {:induction false} ApplyKeeps(applying: set<string>, w: World, plan: Plan, lease: Lease)
    requires Inv(w) && Assembled(plan)
    ensures var call := Apply(applying, w, plan, lease);
      && Inv(call.world)
      && (call.Raised? ==> PlanFault(call.code))
  {
    hide Inv, Assembled, VisitTables, Finish, VisitFault;
    var init := C.InitializeCheckpoint(w.control, plan.gen, plan.previousFrontier);
    if plan.gen in applying && !lease.Spent() && init.Ok? {
      InitializeKeeps(w, plan.gen, plan.previousFrontier);
      var w1 := w.(control := init.control);
      var claim := C.Claim(init.control, plan);
      if !lease.Next().Spent() && claim.Ok? {
        ClaimKeeps(w1, plan);
        var w2 := w1.(control := claim.control);
        VisitsAreTables(plan);
        var rest := lease.Next().Next();
        VisitsKeep(w2, plan, plan.Visits(), rest);
        VisitsGrow(w2, plan, plan.Visits(), rest);
        var p := VisitTables(w2, plan, plan.Visits(), rest);
        if p.Continue? {
          FinishKeeps(p.world, plan, init.control.checkpoints[plan.gen].revision, p.lease);
        }
      }
    }
  }

  datatype Attempt = Attempt(plan: Plan, lease: Lease)

  function Run(applying: set<string>, w: World, attempts: seq<Attempt>): World
    decreases |attempts|
  {
    if attempts == [] then w
    else Run(applying, Apply(applying, w, attempts[0].plan, attempts[0].lease).world, attempts[1..])
  }

  lemma {:induction false} StartIsInv(w: World)
    requires Start(w)
    ensures Inv(w)
  {
    forall name, i | 0 <= i < |LogOf(w, name)| ensures LabelOk(w, name, LogOf(w, name)[i]) {
      assert !LogOf(w, name)[i].token.CommitToken?;
    }
  }

  lemma {:induction false} RunKeeps(applying: set<string>, w: World, attempts: seq<Attempt>)
    requires Inv(w) && forall a :: a in attempts ==> Assembled(a.plan)
    ensures Inv(Run(applying, w, attempts))
    decreases |attempts|
  {
    if attempts != [] {
      assert attempts[0] in attempts;
      ApplyKeeps(applying, w, attempts[0].plan, attempts[0].lease);
      RunKeeps(applying, Apply(applying, w, attempts[0].plan, attempts[0].lease).world, attempts[1..]);
    }
  }

  /**
  Effectively once, checkpoint last.  In every world reached from a fresh store: a
  token labels at most one snapshot, each receipt's token labels a matching snapshot,
  a checkpointed transaction has all its receipts and tombstones, and tombstones are
  genuine.  A further call can fail only through its own plan.
  */
  lemma {:induction false} EffectivelyOnce(applying: set<string>, start: World, attempts: seq<Attempt>, plan: Plan,
                                           lease: Lease)
    requires Start(start) && Assembled(plan) && forall a :: a in attempts ==> Assembled(a.plan)
    ensures Inv(Run(applying, start, attempts))
    ensures var call := Apply(applying, Run(applying, start, attempts), plan, lease);
      call.Raised? ==> PlanFault(call.code)
  {
    StartIsInv(start);
    RunKeeps(applying, start, attempts);
    ApplyKeeps(applying, Run(applying, start, attempts), plan, lease);
  }
}
