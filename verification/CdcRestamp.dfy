/**
Plans of one transaction that differ in when their events were ingested.  They have one
transaction digest, so each may resume the other's work, but their table inputs and
commit tokens differ.  What follows from that, exactly: when a call stops on a receipt,
and when a table is committed twice.
*/
module CdcRestamp {
  import opened Common
  import opened Sorting
  import opened Events
  import opened CdcApply
  import opened CdcConvergence
  import opened CdcInvariant
  import opened CdcRefinement
  import T = IcebergCdc
  import C = CdcControl

  /** The same transaction read again: only the ingestion stamps may differ. */
  ghost predicate Restamps(p: Plan, q: Plan)
  {
    q == p.(events := q.events) && Projections(q.events) == Projections(p.events)
  }

  /** The transaction digest tells transactions apart, but not their ingestion stamps. */
  lemma DigestForgetsStamps(p: Plan, q: Plan)
    requires Assembled(p) && Assembled(q)
    requires p.gen == q.gen && p.tx == q.tx && p.previousFrontier == q.previousFrontier && p.commitLsn == q.commitLsn
    ensures p.digest == q.digest <==> Restamps(p, q)
  {
    if p.digest == q.digest {
      TablesOfProjections(p.events);
      TablesOfProjections(q.events);
      ListsUnique(p.tables, q.tables, TablesOf(p.events));
    }
  }

  lemma {:induction false} RestampIsAssembled(p: Plan, q: Plan)
    requires Assembled(p) && Restamps(p, q)
    ensures Assembled(q)
  {
    TablesOfProjections(p.events);
    TablesOfProjections(q.events);
  }

  /** The table's receipt was made of other table events. */
  predicate Stale(w: World, plan: Plan, name: string)
  {
    var id := ReceiptIdOf(plan, name);
    id in w.control.receipts && w.control.receipts[id].input != plan.Input(name)
  }

  /** They are the same events, with other ingestion stamps. */
  lemma {:induction false} StaleMeansOtherStamps(w: World, plan: Plan, name: string)
    requires Inv(w) && ClaimedBy(w, plan) && Stale(w, plan, name)
    ensures var input := w.control.receipts[ReceiptIdOf(plan, name)].input;
      && input.TableInput? && input.events != EventsFor(plan.events, name)
      && Projections(input.events) == Projections(EventsFor(plan.events, name))
  {
    hide LabelsOk, TransactionsOk, TombstonesOk, UniqueTokens, EventsFor, Slice, Projections, LogOf;
    assert ReceiptOk(w, ReceiptIdOf(plan, name));
    SliceOfProjections(plan.events, name);
  }

  type Receipts = map<C.ReceiptId, C.Receipt>

  ghost predicate EarlierReceipted(receipts: Receipts, id: C.ReceiptId)
    requires id in receipts
  {
    receipts[id].txDigest.TransactionInput? ==>
      forall name :: name in TablesIn(receipts[id].txDigest.projections) && Le(Chars(name), Chars(id.2)) ==>
        (id.0, id.1, name) in receipts
  }

  /** A transaction's tables get their receipts in visiting order. */
  ghost predicate InVisitOrder(receipts: Receipts)
  {
    forall id :: id in receipts ==> EarlierReceipted(receipts, id)
  }

  /** A visit touches its own table and its own receipt only. */
  lemma {:induction false} VisitFrame(w: World, plan: Plan, name: string, lease: Lease)
    ensures var w' := VisitTable(w, plan, name, lease).State();
      && (forall other :: other != name ==> T.TableOf(w'.tables, other) == T.TableOf(w.tables, other))
      && (forall id :: id in w'.control.receipts ==> id in w.control.receipts || id == ReceiptIdOf(plan, name))
  {
    hide EventsFor, T.SnapshotForToken, T.ApplyTable;
    CommitLeavesToken(w, plan, name, lease);
  }

  lemma {:induction false} NewReceiptInOrder(w: World, plan: Plan, i: nat, w': World)
    requires ReceiptsOk(w') && ClaimedBy(w', plan) && i < |plan.tables|
    requires InVisitOrder(w.control.receipts) && Grows(w, w')
    requires forall k :: 0 <= k < i ==> Receipted(w, plan, plan.tables[k])
    requires Receipted(w', plan, plan.tables[i])
    requires forall id :: id in w'.control.receipts ==>
      id in w.control.receipts || id == ReceiptIdOf(plan, plan.tables[i])
    ensures InVisitOrder(w'.control.receipts)
  {
    hide EventsFor, Projections, ReceiptsOk, Chars;
    var own := ReceiptIdOf(plan, plan.tables[i]);
    ReceiptIsOwn(w', plan, plan.tables[i]);
    TablesOfProjections(plan.events);
    VisitsAreTables(plan);
    forall name | name in plan.tables && Le(Chars(name), Chars(own.2))
      ensures ReceiptIdOf(plan, name) in w'.control.receipts
    {
      var k :| 0 <= k < |plan.tables| && plan.tables[k] == name;
      if k > i {
        LeAntisymmetric(Chars(name), Chars(own.2));
        CharsInjective(name, own.2);
      } else if k < i {
        assert Receipted(w, plan, plan.tables[k]);
      }
    }
    assert EarlierReceipted(w'.control.receipts, own);
    forall id | id in w'.control.receipts ensures EarlierReceipted(w'.control.receipts, id) {
      if id in w.control.receipts { assert EarlierReceipted(w.control.receipts, id); }
    }
  }

  lemma {:induction false} VisitsInOrder(w: World, plan: Plan, i: nat, lease: Lease)
    requires Inv(w) && ClaimedBy(w, plan) && i <= |plan.tables|
    requires InVisitOrder(w.control.receipts)
    requires forall k :: 0 <= k < i ==> Receipted(w, plan, plan.tables[k])
    ensures InVisitOrder(VisitTables(w, plan, plan.tables[i..], lease).State().control.receipts)
    decreases |plan.tables| - i
  {
    hide LabelsOk, ReceiptsOk, TransactionsOk, TombstonesOk, UniqueTokens, InVisitOrder, VisitTable;
    hide EventsFor, Assembled;
    if i < |plan.tables| {
      var name := plan.tables[i];
      assert plan.tables[i..][0] == name && plan.tables[i..][1..] == plan.tables[i + 1..];
      VisitKeeps(w, plan, name, lease);
      VisitGrows(w, plan, name, lease);
      VisitFrame(w, plan, name, lease);
      var p := VisitTable(w, plan, name, lease);
      if p.Continue? {
        NewReceiptInOrder(w, plan, i, p.world);
        forall k | 0 <= k < i + 1 ensures Receipted(p.world, plan, plan.tables[k]) {
          assert k < i ==> Receipted(w, plan, plan.tables[k]);
        }
        VisitsInOrder(p.world, plan, i + 1, p.lease);
      } else {
        HaltAddsNoReceipt(w, plan, name, lease);
      }
    }
  }

  lemma {:induction false} HaltAddsNoReceipt(w: World, plan: Plan, name: string, lease: Lease)
    ensures var p := VisitTable(w, plan, name, lease); p.Halt? ==> p.State().control == w.control
  {
    hide CommitStep, ReceiptStep;
    CommitKeepsControl(w, plan, name, lease);
    CommitLeavesToken(w, plan, name, lease);
    var commit := CommitStep(w, plan, name, lease);
    if ReceiptIdOf(plan, name) !in w.control.receipts && commit.Continue? {
      ReceiptStepGrows(commit.world, plan, name, commit.lease);
    }
  }

  lemma {:induction false} FinishFrame(w: World, plan: Plan, expected: nat, lease: Lease)
    ensures var w' := Finish(w, plan, expected, lease).world;
      w'.tables == w.tables && w'.control.receipts == w.control.receipts
  {
    hide C.Bury, Lists, C.ReceiptTables;
  }

  /** Past the claim, and not yet checkpointed: the call gets to the tables. */
  predicate Resumes(applying: set<string>, w: World, plan: Plan, lease: Lease)
  {
    && plan.gen in applying && !lease.Spent() && !lease.Next().Spent()
    && (plan.gen in w.control.checkpoints ==>
          w.control.checkpoints[plan.gen].frontier == plan.previousFrontier
          || w.control.checkpoints[plan.gen].revision > 0)
    && (C.IdOf(plan) in w.control.transactions ==>
          w.control.transactions[C.IdOf(plan)].digest == plan.digest
          && w.control.transactions[C.IdOf(plan)].state.APPLYING?)
  }

  /** The world in which a call that gets to the tables visits them. */
  function Claimed(w: World, plan: Plan): World
  {
    var c := w.control;
    var checkpoints := if plan.gen in c.checkpoints then c.checkpoints
      else c.checkpoints[plan.gen := C.Checkpoint(plan.previousFrontier, 0, None)];
    var transactions := if C.IdOf(plan) in c.transactions then c.transactions
      else c.transactions[C.IdOf(plan) := C.ClaimRow(plan)];
    w.(control := c.(checkpoints := checkpoints, transactions := transactions))
  }

  lemma {:induction false} CallOpens(applying: set<string>, w: World, plan: Plan, lease: Lease)
    ensures var call := Apply(applying, w, plan, lease);
      if Resumes(applying, w, plan, lease) then
        call == Work(Claimed(w, plan), plan, Claimed(w, plan).control.checkpoints[plan.gen].revision,
                     lease.Next().Next())
      else
        && call.world.tables == w.tables && call.world.control.receipts == w.control.receipts
        && (call.Raised? ==> call.code != CB24P002_RECEIPT_MISMATCH)
  {
    hide Work;
  }

  lemma {:induction false} ClaimedKeeps(applying: set<string>, w: World, plan: Plan, lease: Lease)
    requires Inv(w) && Assembled(plan) && Resumes(applying, w, plan, lease)
    ensures Inv(Claimed(w, plan)) && ClaimedBy(Claimed(w, plan), plan) && !Checkpointed(Claimed(w, plan), plan)
  {
    hide Inv, Assembled;
    InitializeKeeps(w, plan.gen, plan.previousFrontier);
    var w1 := w.(control := C.InitializeCheckpoint(w.control, plan.gen, plan.previousFrontier).control);
    ClaimKeeps(w1, plan);
  }

  lemma {:induction false} CallKeepsOrder(applying: set<string>, w: World, plan: Plan, lease: Lease)
    requires Inv(w) && Assembled(plan) && InVisitOrder(w.control.receipts)
    ensures InVisitOrder(Apply(applying, w, plan, lease).world.control.receipts)
  {
    hide Inv, Apply, InVisitOrder, VisitTables, Finish, ClaimedBy;
    CallOpens(applying, w, plan, lease);
    if Resumes(applying, w, plan, lease) {
      ClaimedKeeps(applying, w, plan, lease);
      VisitsAreTables(plan);
      var w2, rest := Claimed(w, plan), lease.Next().Next();
      VisitsInOrder(w2, plan, 0, rest);
      assert plan.tables[0..] == plan.tables;
      var p := VisitTables(w2, plan, plan.tables, rest);
      if p.Continue? { FinishFrame(p.world, plan, w2.control.checkpoints[plan.gen].revision, p.lease); }
    }
  }

  /** A visit stops on a receipt exactly when the receipt is stale. */
  lemma {:induction false} VisitMismatch(w: World, plan: Plan, name: string, lease: Lease)
    requires Inv(w) && ClaimedBy(w, plan) && name in plan.tables
    ensures var p := VisitTable(w, plan, name, lease);
      if Stale(w, plan, name) then p == Halt(Raised(w, CB24P002_RECEIPT_MISMATCH))
      else
        && (p.Halt? && p.call.Raised? ==> p.call.code != CB24P002_RECEIPT_MISMATCH)
        && (ReceiptIdOf(plan, name) in w.control.receipts ==> p == Continue(w, lease))
  {
    hide LabelsOk, TransactionsOk, TombstonesOk, UniqueTokens, EventsFor, Slice, Projections, CommitStep, ReceiptStep;
    if ReceiptIdOf(plan, name) in w.control.receipts {
      assert ReceiptOk(w, ReceiptIdOf(plan, name));
    } else {
      CommitKeeps(w, plan, name, lease);
      CommitLeavesToken(w, plan, name, lease);
      var commit := CommitStep(w, plan, name, lease);
      if commit.Continue? { ReceiptKeeps(commit.world, plan, name, commit.lease); }
    }
  }

  /** The visits stop on a receipt exactly when one of the tables still to visit has a stale one. */
  lemma {:induction false} VisitsMismatch(w: World, plan: Plan, i: nat, lease: Lease)
    requires Inv(w) && ClaimedBy(w, plan) && i <= |plan.tables| && InVisitOrder(w.control.receipts)
    requires forall k :: 0 <= k < i ==> Receipted(w, plan, plan.tables[k])
    ensures var p := VisitTables(w, plan, plan.tables[i..], lease);
      p.Halt? && p.call.Raised? && p.call.code == CB24P002_RECEIPT_MISMATCH <==>
      exists k :: i <= k < |plan.tables| && Stale(w, plan, plan.tables[k])
    decreases |plan.tables| - i
  {
    hide Inv, InVisitOrder, VisitTable, Stale, Assembled, Receipted;
    if i < |plan.tables| {
      var name := plan.tables[i];
      assert plan.tables[i..][0] == name && plan.tables[i..][1..] == plan.tables[i + 1..];
      VisitMismatch(w, plan, name, lease);
      VisitKeeps(w, plan, name, lease);
      VisitGrows(w, plan, name, lease);
      var p := VisitTable(w, plan, name, lease);
      forall k | i < k < |plan.tables| && Stale(w, plan, plan.tables[k]) && !Stale(w, plan, name)
        ensures p == Continue(w, lease)
      {
        EarlierHasReceipt(w, plan, i, k);
      }
      if p.Continue? {
        forall k | 0 <= k < i + 1 ensures Receipted(p.world, plan, plan.tables[k]) {
          if k < i { ReceiptedStays(w, plan, plan.tables[k], p.world); }
        }
        OtherStale(w, plan, i, lease);
        OrderAfterVisit(w, plan, i, lease);
        VisitsMismatch(p.world, plan, i + 1, p.lease);
      }
    }
  }

  lemma {:induction false} ReceiptedStays(w: World, plan: Plan, name: string, w': World)
    requires Receipted(w, plan, name) && Grows(w, w')
    ensures Receipted(w', plan, name)
  {
  }

  lemma {:induction false} OrderAfterVisit(w: World, plan: Plan, i: nat, lease: Lease)
    requires Inv(w) && ClaimedBy(w, plan) && i < |plan.tables| && InVisitOrder(w.control.receipts)
    requires forall k :: 0 <= k < i ==> Receipted(w, plan, plan.tables[k])
    requires VisitTable(w, plan, plan.tables[i], lease).Continue?
    ensures InVisitOrder(VisitTable(w, plan, plan.tables[i], lease).world.control.receipts)
  {
    hide LabelsOk, ReceiptsOk, TransactionsOk, TombstonesOk, UniqueTokens, InVisitOrder, VisitTable, Assembled;
    VisitKeeps(w, plan, plan.tables[i], lease);
    VisitGrows(w, plan, plan.tables[i], lease);
    VisitFrame(w, plan, plan.tables[i], lease);
    NewReceiptInOrder(w, plan, i, VisitTable(w, plan, plan.tables[i], lease).world);
  }

  lemma {:induction false} OtherStale(w: World, plan: Plan, i: nat, lease: Lease)
    requires Assembled(plan) && i < |plan.tables|
    ensures var w' := VisitTable(w, plan, plan.tables[i], lease).State();
      forall k :: i < k < |plan.tables| ==> (Stale(w', plan, plan.tables[k]) <==> Stale(w, plan, plan.tables[k]))
  {
    hide VisitTable, EventsFor, TablesOf;
    VisitFrame(w, plan, plan.tables[i], lease);
    VisitGrows(w, plan, plan.tables[i], lease);
  }

  lemma {:induction false} EarlierHasReceipt(w: World, plan: Plan, i: nat, k: nat)
    requires Inv(w) && ClaimedBy(w, plan) && InVisitOrder(w.control.receipts)
    requires i < k < |plan.tables| && Stale(w, plan, plan.tables[k])
    ensures ReceiptIdOf(plan, plan.tables[i]) in w.control.receipts
  {
    hide LabelsOk, TransactionsOk, TombstonesOk, UniqueTokens, EventsFor, Projections, Slice, Chars;
    var id := ReceiptIdOf(plan, plan.tables[k]);
    assert ReceiptOk(w, id) && EarlierReceipted(w.control.receipts, id);
    TablesOfProjections(plan.events);
    VisitsAreTables(plan);
    assert plan.tables[i] in TablesIn(plan.digest.projections);
  }

  ghost predicate SomeStale(w: World, plan: Plan)
  {
    exists k :: 0 <= k < |plan.tables| && Stale(w, plan, plan.tables[k])
  }

  /**
  The exact condition of CB24P002: the call gets to the tables, and some receipt of the
  transaction was made of the same events with other ingestion stamps.
  */
  lemma {:induction false} MismatchIff(applying: set<string>, w: World, plan: Plan, lease: Lease)
    requires Inv(w) && Assembled(plan) && InVisitOrder(w.control.receipts)
    ensures var call := Apply(applying, w, plan, lease);
      call.Raised? && call.code == CB24P002_RECEIPT_MISMATCH <==>
      Resumes(applying, w, plan, lease) && SomeStale(w, plan)
  {
    hide Inv, Apply, InVisitOrder, VisitTables, Finish, ClaimedBy;
    CallOpens(applying, w, plan, lease);
    if Resumes(applying, w, plan, lease) {
      ClaimedKeeps(applying, w, plan, lease);
      VisitsAreTables(plan);
      var w2, rest := Claimed(w, plan), lease.Next().Next();
      assert forall k :: 0 <= k < |plan.tables| ==>
        (Stale(w2, plan, plan.tables[k]) <==> Stale(w, plan, plan.tables[k]));
      VisitsMismatch(w2, plan, 0, rest);
      assert plan.tables[0..] == plan.tables;
      var p := VisitTables(w2, plan, plan.tables, rest);
      if p.Continue? { CloseFault(w2, plan, rest); }
    }
  }

  lemma {:induction false} CloseFault(w: World, plan: Plan, lease: Lease)
    requires Inv(w) && ClaimedBy(w, plan) && VisitTables(w, plan, plan.tables, lease).Continue?
    ensures var p := VisitTables(w, plan, plan.tables, lease);
      var call := Finish(p.world, plan, w.control.checkpoints[plan.gen].revision, p.lease);
      call.Raised? ==> call.code == Control(C.CB24C008_FRONTIER_MISMATCH)
  {
    hide Inv, VisitTables, Finish, Assembled;
    VisitsKeep(w, plan, plan.tables, lease);
    VisitsGrow(w, plan, plan.tables, lease);
    var p := VisitTables(w, plan, plan.tables, lease);
    FinishKeeps(p.world, plan, w.control.checkpoints[plan.gen].revision, p.lease);
  }

  lemma {:induction false} RunKeepsOrder(applying: set<string>, w: World, attempts: seq<Attempt>)
    requires Inv(w) && InVisitOrder(w.control.receipts) && forall a :: a in attempts ==> Assembled(a.plan)
    ensures Inv(Run(applying, w, attempts)) && InVisitOrder(Run(applying, w, attempts).control.receipts)
    decreases |attempts|
  {
    hide Inv, InVisitOrder, Assembled, Apply;
    if attempts != [] {
      assert attempts[0] in attempts;
      ApplyKeeps(applying, w, attempts[0].plan, attempts[0].lease);
      CallKeepsOrder(applying, w, attempts[0].plan, attempts[0].lease);
      RunKeepsOrder(applying, Apply(applying, w, attempts[0].plan, attempts[0].lease).world, attempts[1..]);
    }
  }

  /** In every world reached from a fresh store. */
  lemma {:induction false} ReachedMismatch(applying: set<string>, start: World, attempts: seq<Attempt>, plan: Plan,
                                           lease: Lease)
    requires Start(start) && Assembled(plan) && forall a :: a in attempts ==> Assembled(a.plan)
    ensures var w := Run(applying, start, attempts);
      var call := Apply(applying, w, plan, lease);
      call.Raised? && call.code == CB24P002_RECEIPT_MISMATCH <==>
      Resumes(applying, w, plan, lease) && SomeStale(w, plan)
  {
    hide Inv, Apply, Run, Assembled;
    StartIsInv(start);
    RunKeepsOrder(applying, start, attempts);
    MismatchIff(applying, Run(applying, start, attempts), plan, lease);
  }
}
