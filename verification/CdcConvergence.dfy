/**
Crash convergence of the apply coordinator: calls killed after any of their
durable writes never change what a later complete call achieves.
*/
module CdcConvergence {
  import opened Common
  import opened Sorting
  import opened Events
  import opened CdcApply
  import T = IcebergCdc
  import C = CdcControl

  /** The table has the receipt that the plan's commit of it would get. */
  ghost predicate Receipted(w: World, plan: Plan, name: string)
  {
    var id := ReceiptIdOf(plan, name);
    && id in w.control.receipts
    && w.control.receipts[id].token == plan.Token(name)
    && w.control.receipts[id].input == plan.Input(name)
  }

  /** Receipts stay; checkpoints, transactions and tombstones are untouched. */
  ghost predicate Grows(w: World, w': World)
  {
    && w'.control.checkpoints == w.control.checkpoints
    && w'.control.transactions == w.control.transactions
    && w'.control.tombstones == w.control.tombstones
    && (forall id :: id in w.control.receipts ==>
          id in w'.control.receipts && w'.control.receipts[id] == w.control.receipts[id])
  }

  lemma {:induction false} CommitKeepsControl(w: World, plan: Plan, name: string, lease: Lease)
    ensures CommitStep(w, plan, name, lease).State().control == w.control
    ensures CommitStep(w, plan, name, lease).Halt? ==> CommitStep(w, plan, name, lease).State() == w
  {
  }

  lemma {:induction false} ReceiptStepGrows(w: World, plan: Plan, name: string, lease: Lease)
    requires T.SnapshotForToken(T.TableOf(w.tables, name).log, plan.Token(name)).Some?
    requires ReceiptIdOf(plan, name) !in w.control.receipts
    ensures var p := ReceiptStep(w, plan, name, lease);
      && (p.Halt? ==> p.State() == w)
      && (p.Continue? ==>
            var receipts := w.control.receipts[ReceiptIdOf(plan, name) := ReceiptOf(w, plan, name)];
            p.world == w.(control := w.control.(receipts := receipts))
            && ReceiptStep(w, plan, name, Unlimited) == Continue(p.world, Unlimited))
  {
    hide EventsFor;
  }

  lemma {:induction false} VisitGrows(w: World, plan: Plan, name: string, lease: Lease)
    ensures var p := VisitTable(w, plan, name, lease);
      && Grows(w, p.State())
      && (p.Continue? ==> Receipted(p.world, plan, name))
  {
    hide CommitStep, ReceiptStep, EventsFor;
    if ReceiptIdOf(plan, name) !in w.control.receipts {
      CommitLeavesToken(w, plan, name, lease);
      CommitKeepsControl(w, plan, name, lease);
      var commit := CommitStep(w, plan, name, lease);
      if commit.Continue? {
        ReceiptStepGrows(commit.world, plan, name, commit.lease);
      }
    }
  }

  lemma {:induction false} VisitsGrow(w: World, plan: Plan, names: seq<string>, lease: Lease)
    ensures var p := VisitTables(w, plan, names, lease);
      && Grows(w, p.State())
      && (p.Continue? ==> forall name :: name in names ==> Receipted(p.world, plan, name))
    decreases |names|
  {
    if names != [] {
      VisitGrows(w, plan, names[0], lease);
      var p := VisitTable(w, plan, names[0], lease);
      if p.Continue? {
        VisitsGrow(p.world, plan, names[1..], p.lease);
        assert names == [names[0]] + names[1..];
      }
    }
  }

  lemma {:induction false} ReceiptedIsSkipped(w: World, plan: Plan, names: seq<string>, lease: Lease)
    requires forall name :: name in names ==> Receipted(w, plan, name)
    ensures VisitTables(w, plan, names, lease) == Continue(w, lease)
    decreases |names|
  {
    if names != [] {
      assert Receipted(w, plan, names[0]);
      ReceiptedIsSkipped(w, plan, names[1..], lease);
    }
  }

  /** Visiting a table again, from wherever a visit stopped, ends as one complete visit. */
  lemma {:induction false} RestartVisit(w: World, plan: Plan, name: string, lease: Lease)
    ensures VisitTable(VisitTable(w, plan, name, lease).State(), plan, name, Unlimited)
         == VisitTable(w, plan, name, Unlimited)
    ensures VisitTable(w, plan, name, lease).Continue? ==>
      VisitTable(w, plan, name, Unlimited) == Continue(VisitTable(w, plan, name, lease).world, Unlimited)
  {
    hide CommitStep, ReceiptStep, EventsFor;
    if ReceiptIdOf(plan, name) !in w.control.receipts {
      CommitLeavesToken(w, plan, name, lease);
      CommitKeepsControl(w, plan, name, lease);
      CommitFindable(w, plan, name, lease);
      VisitGrows(w, plan, name, lease);
      var commit := CommitStep(w, plan, name, lease);
      if commit.Continue? { ReceiptStepGrows(commit.world, plan, name, commit.lease); }
    }
  }

  /** A commit just made is found under its token, with the digests it was made with. */
  lemma {:induction false} CommitFindable(w: World, plan: Plan, name: string, lease: Lease)
    ensures var p := CommitStep(w, plan, name, lease);
      p.Continue? ==>
        && CommitStep(p.world, plan, name, Unlimited) == Continue(p.world, Unlimited)
        && CommitStep(w, plan, name, Unlimited) == Continue(p.world, Unlimited)
  {
    var p := CommitStep(w, plan, name, lease);
    var t := T.TableOf(w.tables, name);
    if p.Continue? && T.SnapshotForToken(t.log, plan.Token(name)) == None {
      var log := T.TableOf(p.world.tables, name).log;
      assert log == t.log + [T.SnapshotOf(plan, name)];
      CommitLeavesToken(w, plan, name, lease);
      var i := T.SnapshotForToken(log, plan.Token(name)).value;
      assert forall j :: 0 <= j < |t.log| ==> log[j] == t.log[j];
      assert log[i] == T.SnapshotOf(plan, name);
    }
  }

  lemma {:induction false} RestartVisits(w: World, plan: Plan, names: seq<string>, lease: Lease)
    ensures VisitTables(VisitTables(w, plan, names, lease).State(), plan, names, Unlimited)
         == VisitTables(w, plan, names, Unlimited)
    ensures VisitTables(w, plan, names, lease).Continue? ==>
      VisitTables(w, plan, names, Unlimited) == Continue(VisitTables(w, plan, names, lease).world, Unlimited)
    decreases |names|
  {
    if names != [] {
      RestartVisit(w, plan, names[0], lease);
      VisitGrows(w, plan, names[0], lease);
      var p := VisitTable(w, plan, names[0], lease);
      if p.Continue? {
        RestartVisits(p.world, plan, names[1..], p.lease);
        VisitsGrow(p.world, plan, names[1..], p.lease);
        var w' := VisitTables(w, plan, names, lease).State();
        assert Receipted(w', plan, names[0]);
        assert VisitTable(w', plan, names[0], Unlimited) == Continue(w', Unlimited);
      }
    }
  }

  lemma {:induction false} BuryContains(t: map<C.TxId, C.Tombstone>, plan: Plan, events: seq<Event>,
                                        tokens: map<string, Digest>)
    requires forall e :: e in events && e.change.Delete? ==> e.table in tokens
    ensures var r := C.Bury(t, plan, events, tokens);
      && (forall id :: id in t ==> id in r && r[id] == t[id])
      && (forall e :: e in events && e.change.Delete? ==> (plan.gen, e.id) in r)
  {
    if events != [] {
      BuryContains(t, plan, events[..|events| - 1], tokens);
      assert events == events[..|events| - 1] + [events[|events| - 1]];
    }
  }

  lemma {:induction false} BuryNothingNew(t: map<C.TxId, C.Tombstone>, plan: Plan, events: seq<Event>,
                                          tokens: map<string, Digest>)
    requires forall e :: e in events && e.change.Delete? ==> e.table in tokens && (plan.gen, e.id) in t
    ensures C.Bury(t, plan, events, tokens) == t
  {
    if events != [] {
      BuryNothingNew(t, plan, events[..|events| - 1], tokens);
    }
  }

  /** Tombstones recorded once are found when they are recorded again. */
  lemma {:induction false} BuryAgain(c: C.Control, plan: Plan)
    requires C.RecordTombstones(c, plan, Tokens(plan)).Ok?
    ensures var c' := C.RecordTombstones(c, plan, Tokens(plan)).control;
      && c' == c.(tombstones := c'.tombstones)
      && C.RecordTombstones(c', plan, Tokens(plan)) == C.Ok(c')
  {
    hide Tokens;
    BuryContains(c.tombstones, plan, plan.events, Tokens(plan));
    var c' := C.RecordTombstones(c, plan, Tokens(plan)).control;
    BuryNothingNew(c'.tombstones, plan, plan.events, Tokens(plan));
  }

  predicate Checkpointed(w: World, plan: Plan)
  {
    C.IdOf(plan) in w.control.transactions && w.control.transactions[C.IdOf(plan)].state.CHECKPOINTED?
  }

  /** The last part of a call, cut short and done again. */
  lemma {:induction false} RestartFinish(w: World, plan: Plan, expected: nat, lease: Lease)
    requires C.IdOf(plan) in w.control.transactions && !Checkpointed(w, plan)
    requires forall name :: name in plan.Visits() ==> Receipted(w, plan, name)
    ensures var w' := Finish(w, plan, expected, lease).world;
      if Checkpointed(w', plan) then Finish(w, plan, expected, Unlimited) == Returned(w', false)
      else
        && Work(w', plan, expected, Unlimited) == Finish(w, plan, expected, Unlimited)
        && w'.control.checkpoints == w.control.checkpoints
        && w'.control.transactions == w.control.transactions
  {
    hide C.RecordTombstones, Lists, C.ReceiptTables, SortedSet, EventsFor, VisitTables;
    var w' := Finish(w, plan, expected, lease).world;
    if C.RecordTombstones(w.control, plan, Tokens(plan)).Ok? { BuryAgain(w.control, plan); }
    if !Checkpointed(w', plan) {
      assert w'.control.receipts == w.control.receipts;
      assert forall name :: name in plan.Visits() ==> Receipted(w', plan, name);
      ReceiptedIsSkipped(w', plan, plan.Visits(), Unlimited);
      if w' != w { BuryAgain(w.control, plan); }
    }
  }

  lemma {:induction false} RestartWork(w: World, plan: Plan, expected: nat, lease: Lease)
    requires C.IdOf(plan) in w.control.transactions && !Checkpointed(w, plan)
    ensures var w' := Work(w, plan, expected, lease).world;
      if Checkpointed(w', plan) then Work(w, plan, expected, Unlimited) == Returned(w', false)
      else
        && Work(w', plan, expected, Unlimited) == Work(w, plan, expected, Unlimited)
        && w'.control.checkpoints == w.control.checkpoints
        && w'.control.transactions == w.control.transactions
  {
    RestartVisits(w, plan, plan.Visits(), lease);
    VisitsGrow(w, plan, plan.Visits(), lease);
    var p := VisitTables(w, plan, plan.Visits(), lease);
    if p.Continue? {
      RestartFinish(p.world, plan, expected, p.lease);
    }
  }

  /** The calls end alike: in the same durable world, both done or both with the same error. */
  ghost predicate SameEnd(a: Call, b: Call)
  {
    && a.world == b.world
    && (a.Returned? <==> b.Returned?)
    && (a.Raised? || b.Raised? ==> a == b)
  }

  lemma {:induction false} FinalizedCheckpoint(w: World, plan: Plan, expected: nat, lease: Lease)
    requires C.IdOf(plan) in w.control.transactions && !Checkpointed(w, plan)
    requires plan.gen in w.control.checkpoints
    ensures var w' := Work(w, plan, expected, lease).world;
      && plan.gen in w'.control.checkpoints
      && C.IdOf(plan) in w'.control.transactions
      && w'.control.transactions[C.IdOf(plan)].digest == w.control.transactions[C.IdOf(plan)].digest
      && (Checkpointed(w', plan) ==> w'.control.checkpoints[plan.gen].revision > 0)
  {
    VisitsGrow(w, plan, plan.Visits(), lease);
  }

  /** One call cut short anywhere does not change where a complete call ends. */
  lemma {:induction false} RestartCall(applying: set<string>, w: World, plan: Plan, lease: Lease)
    ensures SameEnd(Apply(applying, Apply(applying, w, plan, lease).world, plan, Unlimited),
                    Apply(applying, w, plan, Unlimited))
  {
    var call := Apply(applying, w, plan, lease);
    var init := C.InitializeCheckpoint(w.control, plan.gen, plan.previousFrontier);
    if plan.gen in applying && !lease.Spent() && init.Ok? {
      assert C.InitializeCheckpoint(init.control, plan.gen, plan.previousFrontier) == init;
      var claim := C.Claim(init.control, plan);
      if !lease.Next().Spent() && claim.Ok? {
        var w2 := w.(control := claim.control);
        assert C.InitializeCheckpoint(claim.control, plan.gen, plan.previousFrontier) == C.Ok(claim.control);
        assert C.Claim(claim.control, plan) == claim;
        if !Checkpointed(w2, plan) {
          var expected := init.control.checkpoints[plan.gen].revision;
          var rest := lease.Next().Next();
          RestartWork(w2, plan, expected, rest);
          FinalizedCheckpoint(w2, plan, expected, rest);
          var w' := Work(w2, plan, expected, rest).world;
          assert call.world == w';
          assert C.InitializeCheckpoint(w'.control, plan.gen, plan.previousFrontier) == C.Ok(w'.control);
          assert C.Claim(w'.control, plan) == C.Ok(w'.control);
        }
      }
    }
  }

  /** Any number of calls, each killed when its lease runs out. */
  function Retries(applying: set<string>, w: World, plan: Plan, leases: seq<Lease>): World
    decreases |leases|
  {
    if leases == [] then w
    else Retries(applying, Apply(applying, w, plan, leases[0]).world, plan, leases[1..])
  }

  /**
  After any number of calls killed after any durable write, a complete call ends in
  exactly the world, and with exactly the error if any, of an uninterrupted first call.
  */
  lemma {:induction false} CrashConvergence(applying: set<string>, w: World, plan: Plan, leases: seq<Lease>)
    ensures SameEnd(Apply(applying, Retries(applying, w, plan, leases), plan, Unlimited),
                    Apply(applying, w, plan, Unlimited))
    decreases |leases|
  {
    if leases != [] {
      RestartCall(applying, w, plan, leases[0]);
      CrashConvergence(applying, Apply(applying, w, plan, leases[0]).world, plan, leases[1..]);
    }
  }
}
