/**
How a transaction's first call ends, whatever the checkpoint's frontier: in particular
that a call from elsewhere commits all its tables before it is refused.
*/
module CdcStall {
  import opened Common
  import opened Sorting
  import opened Events
  import opened BatchRefinement
  import opened CdcApply
  import opened CdcConvergence
  import opened CdcInvariant
  import opened CdcRefinement
  import opened CdcRestamp
  import T = IcebergCdc
  import C = CdcControl

  /** The plan starts where the checkpoint stands, if there is one. */
  predicate FrontierFits(w: World, plan: Plan)
  {
    plan.gen in w.control.checkpoints ==> w.control.checkpoints[plan.gen].frontier == plan.previousFrontier
  }

  lemma {:induction false} VisitAlive(w: World, plan: Plan, name: string)
    ensures var p := VisitTable(w, plan, name, Unlimited);
      (p.Continue? ==> p.lease == Unlimited) && (p.Halt? ==> !p.call.Killed?)
  {
    hide EventsFor, T.ApplyTable, T.SnapshotForToken;
    CommitLeavesToken(w, plan, name, Unlimited);
  }

  lemma {:induction false} VisitsAlive(w: World, plan: Plan, names: seq<string>)
    ensures var p := VisitTables(w, plan, names, Unlimited);
      (p.Continue? ==> p.lease == Unlimited) && (p.Halt? ==> !p.call.Killed?)
    decreases |names|
  {
    hide VisitTable;
    if names != [] {
      VisitAlive(w, plan, names[0]);
      var p := VisitTable(w, plan, names[0], Unlimited);
      if p.Continue? { VisitsAlive(p.world, plan, names[1..]); }
    }
  }

  lemma {:induction false} FinishOutcome(w: World, plan: Plan, expected: nat)
    requires Inv(w) && ClaimedBy(w, plan) && !Checkpointed(w, plan)
    requires expected == w.control.checkpoints[plan.gen].revision
    requires forall name :: name in plan.tables ==> Receipted(w, plan, name)
    ensures var call := Finish(w, plan, expected, Unlimited);
      && call.world.tables == w.tables && call.world.control.receipts == w.control.receipts
      && if FrontierFits(w, plan) then call.Returned?
         else call == Raised(call.world, Control(C.CB24C008_FRONTIER_MISMATCH))
              && call.world.control.checkpoints == w.control.checkpoints
  {
    hide Inv, C.RecordTombstones, Assembled, C.ReceiptTables, Lists, Receipted;
    BuryKeeps(w, plan);
    FinishFrame(w, plan, expected, Unlimited);
    var w1 := w.(control := C.RecordTombstones(w.control, plan, Tokens(plan)).control);
    forall name | name in plan.tables ensures Receipted(w1, plan, name) { StillReceipted(w, plan, name, w1); }
    ReceiptsAreComplete(w1, plan);
  }

  lemma StillReceipted(w: World, plan: Plan, name: string, w': World)
    requires Receipted(w, plan, name) && w'.control.receipts == w.control.receipts
    ensures Receipted(w', plan, name)
  {
  }

  lemma {:induction false} FreshWork(w: World, plan: Plan)
    requires Inv(w) && ClaimedBy(w, plan) && !Checkpointed(w, plan) && Untouched(w, plan, plan.tables)
    ensures var call := Work(w, plan, w.control.checkpoints[plan.gen].revision, Unlimited);
      && !call.Killed?
      && (call.Returned? <==> AllAccepted(w.tables, plan) && FrontierFits(w, plan))
      && (call.Raised? && call.code == Control(C.CB24C008_FRONTIER_MISMATCH) <==>
            AllAccepted(w.tables, plan) && !FrontierFits(w, plan))
      && (AllAccepted(w.tables, plan) ==>
            && AllMerged(w.tables, plan, call.world.tables)
            && forall name :: name in plan.tables ==> Receipted(call.world, plan, name))
      && (!call.Returned? ==> call.world.control.checkpoints == w.control.checkpoints)
  {
    hide Inv, Finish, VisitTable, VisitTables, Receipted, Untouched, T.BatchAccepted, T.Merge, EventsFor;
    VisitsAreTables(plan);
    FirstVisits(w, plan, plan.tables);
    VisitsKeep(w, plan, plan.tables, Unlimited);
    VisitsGrow(w, plan, plan.tables, Unlimited);
    VisitsAlive(w, plan, plan.tables);
    var p := VisitTables(w, plan, plan.tables, Unlimited);
    if p.Continue? {
      FinishOutcome(p.world, plan, w.control.checkpoints[plan.gen].revision);
      var w' := Finish(p.world, plan, w.control.checkpoints[plan.gen].revision, Unlimited).world;
      forall name | name in plan.tables ensures Receipted(w', plan, name) { StillReceipted(p.world, plan, name, w'); }
    }
  }

  /**
  The end of a transaction's first call.  It returns exactly when every table accepts
  its batch and the frontier fits; and it is refused for the frontier exactly when every
  table accepts and the frontier does not fit, with all tables committed and receipted
  and the checkpoint where it was.
  */
  lemma {:induction false} FreshCall(applying: set<string>, w: World, plan: Plan)
    requires Inv(w) && Assembled(plan) && C.IdOf(plan) !in w.control.transactions
    requires Resumes(applying, w, plan, Unlimited)
    ensures var call := Apply(applying, w, plan, Unlimited);
      && !call.Killed?
      && (call.Returned? <==> AllAccepted(w.tables, plan) && FrontierFits(w, plan))
      && (call.Raised? && call.code == Control(C.CB24C008_FRONTIER_MISMATCH) <==>
            AllAccepted(w.tables, plan) && !FrontierFits(w, plan))
      && (AllAccepted(w.tables, plan) ==>
            && AllMerged(w.tables, plan, call.world.tables)
            && forall name :: name in plan.tables ==> Receipted(call.world, plan, name))
      && (!call.Returned? && plan.gen in w.control.checkpoints ==>
            call.world.control.checkpoints == w.control.checkpoints)
  {
    hide Inv, Apply, Work, AllAccepted, AllMerged, Receipted, Assembled;
    CallOpens(applying, w, plan, Unlimited);
    ClaimedKeeps(applying, w, plan, Unlimited);
    UnclaimedIsUntouched(w, plan, plan.tables);
    var s := Claimed(w, plan);
    ClaimedUntouched(w, plan);
    FreshWork(s, plan);
  }

  lemma ClaimedUntouched(w: World, plan: Plan)
    requires Untouched(w, plan, plan.tables)
    ensures Untouched(Claimed(w, plan), plan, plan.tables)
  {
  }
}
