/**
The whole protocol against the sequential reference: a transaction's calls, however
often they are killed on the way, succeed exactly when the reference accepts the
transaction, and leave the reference's rows and tombstones.
*/
module CdcRefinement {
  import opened Common
  import opened Sorting
  import opened Events
  import opened BatchRefinement
  import opened CdcApply
  import opened CdcConvergence
  import opened CdcInvariant
  import Ref = ReferenceCdc
  import T = IcebergCdc
  import C = CdcControl

  function RowsOf(w: World, name: string): T.Bag { T.TableOf(w.tables, name).rows }

  /** No commit of the plan's tables is durable yet. */
  ghost predicate Untouched(w: World, plan: Plan, names: seq<string>)
  {
    forall name :: name in names ==>
      && ReceiptIdOf(plan, name) !in w.control.receipts
      && T.SnapshotForToken(LogOf(w, name), plan.Token(name)) == None
  }

  lemma {:induction false} UnclaimedIsUntouched(w: World, plan: Plan, names: seq<string>)
    requires Inv(w) && C.IdOf(plan) !in w.control.transactions
    ensures Untouched(w, plan, names)
  {
    forall name | name in names
      ensures ReceiptIdOf(plan, name) !in w.control.receipts
      ensures T.SnapshotForToken(LogOf(w, name), plan.Token(name)) == None
    {
      var id := ReceiptIdOf(plan, name);
      assert id in w.control.receipts ==> ReceiptOk(w, id);
      var log := LogOf(w, name);
      forall i | 0 <= i < |log| ensures log[i].token != plan.Token(name) {
        assert LabelOk(w, name, log[i]);
      }
    }
  }

  /** The table holds its merged batch, and only its own receipt may be new. */
  ghost predicate MergedOne(w: World, plan: Plan, name: string, w': World)
  {
    && RowsOf(w', name) == T.Merge(RowsOf(w, name), EventsFor(plan.events, name))
    && (forall other :: other != name ==> T.TableOf(w'.tables, other) == T.TableOf(w.tables, other))
    && (forall id :: id in w'.control.receipts ==> id in w.control.receipts || id == ReceiptIdOf(plan, name))
  }

  lemma {:induction false} HasEvents(plan: Plan, name: string)
    requires Assembled(plan) && name in plan.tables
    ensures EventsFor(plan.events, name) != []
  {
    VisitsAreTables(plan);
    var e :| e in plan.events && e.table == name;
    assert e in EventsFor(plan.events, name);
  }

  lemma {:induction false} FirstCommit(w: World, plan: Plan, name: string)
    requires Assembled(plan) && name in plan.tables
    requires T.SnapshotForToken(LogOf(w, name), plan.Token(name)) == None
    ensures var p := CommitStep(w, plan, name, Unlimited);
      && (p.Continue? <==> T.BatchAccepted(RowsOf(w, name), EventsFor(plan.events, name)))
      && (p.Continue? ==> p.lease == Unlimited && p.world.control == w.control && MergedOne(w, plan, name, p.world))
  {
    HasEvents(plan, name);
    var t, events := T.TableOf(w.tables, name), EventsFor(plan.events, name);
    var commit := T.ApplyTable(t, plan, name);
    assert commit.Committed? <==> T.BatchAccepted(t.rows, events);
    if commit.Committed? {
      assert commit.table.rows == T.Merge(t.rows, events);
    }
  }

  /** A first visit commits the table exactly when its batch is accepted. */
  lemma {:induction false} FirstVisit(w: World, plan: Plan, name: string)
    requires Inv(w) && ClaimedBy(w, plan) && name in plan.tables && Untouched(w, plan, [name])
    ensures var p := VisitTable(w, plan, name, Unlimited);
      && (p.Continue? <==> T.BatchAccepted(RowsOf(w, name), EventsFor(plan.events, name)))
      && (p.Continue? ==> p.lease == Unlimited && MergedOne(w, plan, name, p.world))
  {
    assert name in [name];
    FirstCommit(w, plan, name);
    CommitLeavesToken(w, plan, name, Unlimited);
    var commit := CommitStep(w, plan, name, Unlimited);
    if commit.Continue? {
      CommitKeeps(w, plan, name, Unlimited);
      FirstReceipt(w, plan, name, commit.world);
    }
  }

  lemma {:induction false} FirstReceipt(w: World, plan: Plan, name: string, w1: World)
    requires Inv(w1) && ClaimedBy(w1, plan) && name in plan.tables
    requires w1.control == w.control && MergedOne(w, plan, name, w1)
    requires T.SnapshotForToken(LogOf(w1, name), plan.Token(name)).Some?
    requires ReceiptIdOf(plan, name) !in w.control.receipts
    ensures var p := ReceiptStep(w1, plan, name, Unlimited);
      p.Continue? && p.lease == Unlimited && MergedOne(w, plan, name, p.world)
  {
    ReceiptKeeps(w1, plan, name, Unlimited);
    ReceiptStepGrows(w1, plan, name, Unlimited);
  }

  /** Every listed table is merged. */
  ghost predicate MergedAll(w: World, plan: Plan, names: seq<string>, w': World)
  {
    forall name :: RowsOf(w', name) ==
      if name in names then T.Merge(RowsOf(w, name), EventsFor(plan.events, name)) else RowsOf(w, name)
  }

  ghost predicate AllBatches(w: World, plan: Plan, names: seq<string>)
  {
    forall name :: name in names ==> T.BatchAccepted(RowsOf(w, name), EventsFor(plan.events, name))
  }

  lemma {:induction false} StillUntouched(w: World, plan: Plan, head: string, tail: seq<string>, w1: World)
    requires MergedOne(w, plan, head, w1) && head !in tail && Untouched(w, plan, tail)
    ensures Untouched(w1, plan, tail)
    ensures AllBatches(w1, plan, tail) <==> AllBatches(w, plan, tail)
  {
    forall name | name in tail
      ensures RowsOf(w1, name) == RowsOf(w, name)
      ensures ReceiptIdOf(plan, name) !in w1.control.receipts
      ensures T.SnapshotForToken(LogOf(w1, name), plan.Token(name)) == None
    {
      assert T.TableOf(w1.tables, name) == T.TableOf(w.tables, name);
    }
  }

  lemma {:induction false} MergedOneThenAll(w: World, plan: Plan, head: string, tail: seq<string>, w1: World, w2: World)
    requires MergedOne(w, plan, head, w1) && MergedAll(w1, plan, tail, w2) && head !in tail
    ensures MergedAll(w, plan, [head] + tail, w2)
  {
    hide T.Merge, EventsFor;
    forall name
      ensures RowsOf(w2, name) ==
        if name in [head] + tail then T.Merge(RowsOf(w, name), EventsFor(plan.events, name)) else RowsOf(w, name)
    {
      assert name != head ==> T.TableOf(w1.tables, name) == T.TableOf(w.tables, name);
    }
  }

  lemma {:induction false} FirstVisits(w: World, plan: Plan, names: seq<string>)
    requires Inv(w) && ClaimedBy(w, plan) && Distinct(names) && Untouched(w, plan, names)
    requires forall name :: name in names ==> name in plan.tables
    ensures var p := VisitTables(w, plan, names, Unlimited);
      && (p.Continue? <==> AllBatches(w, plan, names))
      && (p.Continue? ==> p.lease == Unlimited && MergedAll(w, plan, names, p.world))
    decreases |names|
  {
    if names != [] {
      var head, tail := names[0], names[1..];
      SplitNames(w, plan, names);
      FirstVisit(w, plan, head);
      VisitKeeps(w, plan, head, Unlimited);
      var p := VisitTable(w, plan, head, Unlimited);
      if p.Continue? {
        StillUntouched(w, plan, head, tail, p.world);
        FirstVisits(p.world, plan, tail);
        var p' := VisitTables(p.world, plan, tail, Unlimited);
        if p'.Continue? { MergedOneThenAll(w, plan, head, tail, p.world, p'.world); }
      }
    }
  }

  lemma {:induction false} SplitNames(w: World, plan: Plan, names: seq<string>)
    requires names != [] && Distinct(names) && Untouched(w, plan, names)
    requires forall name :: name in names ==> name in plan.tables
    ensures names == [names[0]] + names[1..]
    ensures names[0] in plan.tables && names[0] !in names[1..]
    ensures forall name :: name in names[1..] ==> name in plan.tables
    ensures Distinct(names[1..]) && Untouched(w, plan, [names[0]]) && Untouched(w, plan, names[1..])
    ensures AllBatches(w, plan, names) <==>
      T.BatchAccepted(RowsOf(w, names[0]), EventsFor(plan.events, names[0])) && AllBatches(w, plan, names[1..])
  {
    var head, tail := names[0], names[1..];
    assert names == [head] + tail;
    assert head in names && forall name :: name in tail ==> name in names;
    assert forall name :: name in names ==> name == head || name in tail;
  }

  /** The call may start: its frontier is the checkpoint's, and nobody has claimed its id. */
  ghost predicate Ready(applying: set<string>, w: World, plan: Plan)
  {
    && plan.gen in applying
    && C.IdOf(plan) !in w.control.transactions
    && (plan.gen in w.control.checkpoints ==> w.control.checkpoints[plan.gen].frontier == plan.previousFrontier)
    && (forall e :: e in plan.events && e.change.Delete? ==> (plan.gen, e.id) !in w.control.tombstones)
  }

  /** Each delete's tombstone is the reference's. */
  ghost predicate SameTombstones(w: World, plan: Plan)
  {
    forall e :: e in plan.events && e.change.Delete? ==>
      && (plan.gen, e.id) in w.control.tombstones
      && var ts := w.control.tombstones[(plan.gen, e.id)];
         Ref.Tombstone(ts.table, ts.key, ts.position, ts.before) == Ref.TombstoneOf(e)
  }

  lemma {:induction false} BuryAbsent(t: map<C.TxId, C.Tombstone>, plan: Plan, events: seq<Event>,
                                      tokens: map<string, Digest>, id: C.TxId)
    requires forall e :: e in events && e.change.Delete? ==> e.table in tokens && e.id != id.1
    requires id !in t
    ensures id !in C.Bury(t, plan, events, tokens)
  {
    if events != [] { BuryAbsent(t, plan, events[..|events| - 1], tokens, id); }
  }

  lemma {:induction false} BuryExact(t: map<C.TxId, C.Tombstone>, plan: Plan, events: seq<Event>,
                                     tokens: map<string, Digest>)
    requires forall e :: e in events && e.change.Delete? ==> e.table in tokens && (plan.gen, e.id) !in t
    requires forall i, j :: 0 <= i < j < |events| && events[i].change.Delete? && events[j].change.Delete? ==>
               events[i].id != events[j].id
    ensures forall e :: e in events && e.change.Delete? ==>
      && (plan.gen, e.id) in C.Bury(t, plan, events, tokens)
      && C.Bury(t, plan, events, tokens)[(plan.gen, e.id)] == C.TombstoneRow(plan, e, tokens[e.table])
  {
    if events != [] {
      var front, last := events[..|events| - 1], events[|events| - 1];
      assert events == front + [last];
      BuryExact(t, plan, front, tokens);
      if last.change.Delete? {
        forall e | e in front && e.change.Delete? ensures e.id != last.id {
          var i :| 0 <= i < |front| && front[i] == e;
          assert events[i] == e && events[|events| - 1] == last;
        }
        BuryAbsent(t, plan, front, tokens, (plan.gen, last.id));
      }
    }
  }

  lemma {:induction false} BurySame(w: World, plan: Plan)
    requires Assembled(plan)
    requires forall e :: e in plan.events && e.change.Delete? ==> (plan.gen, e.id) !in w.control.tombstones
    requires forall i, j ::
               0 <= i < j < |plan.events| && plan.events[i].change.Delete? && plan.events[j].change.Delete? ==>
               plan.events[i].id != plan.events[j].id
    ensures var r := C.RecordTombstones(w.control, plan, Tokens(plan));
      r.Ok? && SameTombstones(w.(control := r.control), plan)
  {
    VisitsAreTables(plan);
    forall e | e in plan.events ensures e.table in Tokens(plan) { assert e.table in TablesOf(plan.events); }
    BuryExact(w.control.tombstones, plan, plan.events, Tokens(plan));
  }

  lemma {:induction false} FinishSucceeds(w: World, plan: Plan, expected: nat)
    requires Inv(w) && ClaimedBy(w, plan) && expected == w.control.checkpoints[plan.gen].revision
    requires forall name :: name in plan.tables ==> Receipted(w, plan, name)
    requires w.control.checkpoints[plan.gen].frontier == plan.previousFrontier
    requires forall e :: e in plan.events && e.change.Delete? ==> (plan.gen, e.id) !in w.control.tombstones
    requires forall i, j ::
               0 <= i < j < |plan.events| && plan.events[i].change.Delete? && plan.events[j].change.Delete? ==>
               plan.events[i].id != plan.events[j].id
    ensures var call := Finish(w, plan, expected, Unlimited);
      call.Returned? && call.world.tables == w.tables && SameTombstones(call.world, plan)
  {
    BuryKeeps(w, plan);
    var w1 := w.(control := C.RecordTombstones(w.control, plan, Tokens(plan)).control);
    assert forall name :: name in plan.tables ==> Receipted(w1, plan, name);
    ReceiptsAreComplete(w1, plan);
    BurySame(w, plan);
    FinishesReady(w1, plan, expected);
  }

  lemma {:induction false} FinishesReady(w: World, plan: Plan, expected: nat)
    requires ClaimedBy(w, plan) && SameTombstones(w, plan)
    requires Lists(plan.tables, C.ReceiptTables(w.control, C.IdOf(plan)))
    requires w.control.checkpoints[plan.gen].revision == expected
    requires w.control.checkpoints[plan.gen].frontier == plan.previousFrontier
    ensures var r := C.Finalize(w.control, plan, expected);
      r.Ok? && SameTombstones(w.(control := r.control), plan)
  {
  }

  /** From a fresh claim on, the call succeeds exactly when every table accepts its batch. */
  lemma {:induction false} FirstWork(w: World, plan: Plan, work: Ref.Work)
    requires Inv(w) && ClaimedBy(w, plan) && Untouched(w, plan, plan.tables)
    requires w.control.checkpoints[plan.gen].frontier == plan.previousFrontier
    requires forall e :: e in plan.events && e.change.Delete? ==> (plan.gen, e.id) !in w.control.tombstones
    requires Ref.FreshDeletes(work, plan.events)
    ensures var call := Work(w, plan, w.control.checkpoints[plan.gen].revision, Unlimited);
      && (call.Returned? <==> AllAccepted(w.tables, plan))
      && (call.Returned? ==> AllMerged(w.tables, plan, call.world.tables) && SameTombstones(call.world, plan))
  {
    hide Finish, VisitTable;
    VisitsAreTables(plan);
    FirstVisits(w, plan, plan.tables);
    VisitsKeep(w, plan, plan.tables, Unlimited);
    VisitsGrow(w, plan, plan.tables, Unlimited);
    var p := VisitTables(w, plan, plan.tables, Unlimited);
    if p.Continue? {
      FinishSucceeds(p.world, plan, w.control.checkpoints[plan.gen].revision);
    }
  }

  /** An uninterrupted first call succeeds exactly when every table accepts its batch. */
  lemma {:induction false} FirstCall(applying: set<string>, w: World, plan: Plan, work: Ref.Work)
    requires Inv(w) && Assembled(plan) && Ready(applying, w, plan)
    requires Ref.FreshDeletes(work, plan.events)
    ensures var call := Apply(applying, w, plan, Unlimited);
      && (call.Returned? <==> AllAccepted(w.tables, plan))
      && (call.Returned? ==> AllMerged(w.tables, plan, call.world.tables) && SameTombstones(call.world, plan))
  {
    hide Work, Inv, SameTombstones, AllAccepted, AllMerged, Assembled;
    var c1 := C.InitializeCheckpoint(w.control, plan.gen, plan.previousFrontier).control;
    InitializeKeeps(w, plan.gen, plan.previousFrontier);
    var w1 := w.(control := c1);
    ClaimKeeps(w1, plan);
    var w2 := w1.(control := C.Claim(c1, plan).control);
    UnclaimedIsUntouched(w, plan, plan.tables);
    SameTables(w, w2);
    assert Untouched(w2, plan, plan.tables);
    FirstWork(w2, plan, work);
  }

  /**
  From equal tables, after any number of killed calls: of the three conditions that a
  complete call succeeds, that the sequential reference accepts the transaction and
  that it touches no row twice, two never hold without the third.  When they hold, the
  call leaves the reference's rows and tombstones.
  */
  lemma {:induction false} ApplyRefinesReference(applying: set<string>, w: World, plan: Plan, leases: seq<Lease>,
                                                 work: Ref.Work)
    requires Inv(w) && Assembled(plan) && Ready(applying, w, plan)
    requires Agrees(w.tables, work.rows)
    requires AllKeyed(plan.events) && Ref.FreshDeletes(work, plan.events)
    ensures var call := Apply(applying, Retries(applying, w, plan, leases), plan, Unlimited);
      && (Ref.ApplyEvents(work, plan.events).Ok? ==> (call.Returned? <==> DistinctRows(plan.events)))
      && (call.Returned? ==> (Ref.ApplyEvents(work, plan.events).Ok? <==> DistinctRows(plan.events)))
      && (DistinctRows(plan.events) ==> (call.Returned? <==> Ref.ApplyEvents(work, plan.events).Ok?))
      && (call.Returned? && Ref.ApplyEvents(work, plan.events).Ok? ==>
            && Agrees(call.world.tables, Ref.ApplyEvents(work, plan.events).value.rows)
            && SameTombstones(call.world, plan))
  {
    hide Inv, Apply, Ready, Assembled, AllMerged, AllAccepted, SameTombstones, AllKeyed, DistinctRows, Agrees;
    CrashConvergence(applying, w, plan, leases);
    FirstCall(applying, w, plan, work);
    AssembledFits(plan);
    if AllAccepted(w.tables, plan) && Ref.ApplyEvents(work, plan.events).Ok? { AcceptedByBoth(w.tables, plan, work); }
    if DistinctRows(plan.events) {
      BatchRefinesSequential(w.tables, plan, work, Apply(applying, w, plan, Unlimited).world.tables);
    }
  }

  lemma AssembledFits(plan: Plan)
    requires Assembled(plan)
    ensures TablesFit(plan)
  {
    VisitsAreTables(plan);
    forall name | name in plan.tables ensures EventsFor(plan.events, name) != [] { HasEvents(plan, name); }
  }
}
