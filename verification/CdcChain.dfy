/**
The checkpoint chain: which transactions a run checkpoints, in which order, and
how the source frontier moves with them.
*/
module CdcChain {
  import opened Common
  import opened Sorting
  import opened Events
  import opened CdcApply
  import opened CdcConvergence
  import opened CdcInvariant
  import Lsn
  import C = CdcControl

  /** Did the call checkpoint its transaction? */
  predicate Moves(w: World, plan: Plan, w': World)
  {
    !Checkpointed(w, plan) && Checkpointed(w', plan)
  }

  /** The plans that a run checkpoints for one generation, in order. */
  function History(applying: set<string>, w: World, attempts: seq<Attempt>, gen: string): seq<Plan>
    decreases |attempts|
  {
    if attempts == [] then []
    else
      var plan := attempts[0].plan;
      var w' := Apply(applying, w, plan, attempts[0].lease).world;
      (if plan.gen == gen && Moves(w, plan, w') then [plan] else [])
      + History(applying, w', attempts[1..], gen)
  }

  function CheckpointedTx(c: C.Control, gen: string): set<string>
  {
    set id | id in c.transactions && id.0 == gen && c.transactions[id].state.CHECKPOINTED? :: id.1
  }

  function Revision(c: C.Control, gen: string): nat
  {
    if gen in c.checkpoints then c.checkpoints[gen].revision else 0
  }

  /** What one call does to checkpoints and transaction states. */
  ghost predicate CallEffect(w: World, plan: Plan, w': World)
  {
    var c, c' := w.control, w'.control;
    && (forall gen :: gen != plan.gen ==> (gen in c.checkpoints <==> gen in c'.checkpoints))
    && (forall gen :: gen != plan.gen && gen in c.checkpoints ==> c'.checkpoints[gen] == c.checkpoints[gen])
    && (forall gen :: CheckpointedTx(c', gen) ==
         CheckpointedTx(c, gen) + if gen == plan.gen && Moves(w, plan, w') then {plan.tx} else {})
    && (if Moves(w, plan, w') then
          && plan.gen in c'.checkpoints
          && (plan.gen in c.checkpoints ==> c.checkpoints[plan.gen].frontier == plan.previousFrontier)
          && c'.checkpoints[plan.gen] ==
               C.Checkpoint(plan.commitLsn, Revision(c, plan.gen) + 1, Some((plan.tx, plan.digest)))
        else if plan.gen in c.checkpoints then
          plan.gen in c'.checkpoints && c'.checkpoints[plan.gen] == c.checkpoints[plan.gen]
        else
          plan.gen in c'.checkpoints ==> c'.checkpoints[plan.gen] == C.Checkpoint(plan.previousFrontier, 0, None))
  }

  lemma {:induction false} WorkEffect(w: World, plan: Plan, expected: nat, lease: Lease)
    requires C.IdOf(plan) in w.control.transactions && !Checkpointed(w, plan)
    requires plan.gen in w.control.checkpoints
    ensures Worked(w, plan, Work(w, plan, expected, lease).world)
  {
    hide VisitTables, VisitTable;
    VisitsGrow(w, plan, plan.Visits(), lease);
  }

  lemma {:induction false} CheckpointedAfter(c: C.Control, plan: Plan, c': C.Control, gen: string)
    requires C.IdOf(plan) in c.transactions && plan.gen in c.checkpoints
    requires c'.transactions == C.Finalized(c, plan).transactions
    ensures CheckpointedTx(c', gen) == CheckpointedTx(c, gen) + if gen == plan.gen then {plan.tx} else {}
  {
    forall tx ensures tx in CheckpointedTx(c', gen) <==>
                      tx in CheckpointedTx(c, gen) || (gen == plan.gen && tx == plan.tx)
    {
      assert (gen, tx) in c'.transactions <==> (gen, tx) in c.transactions;
    }
  }

  lemma {:induction false} ClaimStates(c: C.Control, plan: Plan, gen: string)
    requires C.Claim(c, plan).Ok?
    ensures CheckpointedTx(C.Claim(c, plan).control, gen) == CheckpointedTx(c, gen)
  {
    var c' := C.Claim(c, plan).control;
    forall tx ensures tx in CheckpointedTx(c', gen) <==> tx in CheckpointedTx(c, gen) {
      assert (gen, tx) in c.transactions ==> c'.transactions[(gen, tx)] == c.transactions[(gen, tx)];
    }
  }

  lemma SameCheckpointed(c: C.Control, c': C.Control, gen: string)
    requires c'.transactions == c.transactions
    ensures CheckpointedTx(c', gen) == CheckpointedTx(c, gen)
  {
  }

  /** The work after a claim moves the checkpoint and the transaction's state, or neither. */
  ghost predicate Worked(w: World, plan: Plan, w': World)
    requires C.IdOf(plan) in w.control.transactions && plan.gen in w.control.checkpoints
  {
    if Checkpointed(w', plan) then
      && w.control.checkpoints[plan.gen].frontier == plan.previousFrontier
      && w'.control.checkpoints == C.Finalized(w.control, plan).checkpoints
      && w'.control.transactions == C.Finalized(w.control, plan).transactions
    else
      w'.control.checkpoints == w.control.checkpoints && w'.control.transactions == w.control.transactions
  }

  lemma {:induction false} WorkedStates(w: World, plan: Plan, w': World, gen: string)
    requires C.IdOf(plan) in w.control.transactions && plan.gen in w.control.checkpoints && Worked(w, plan, w')
    ensures CheckpointedTx(w'.control, gen) ==
      CheckpointedTx(w.control, gen) + if gen == plan.gen && Checkpointed(w', plan) then {plan.tx} else {}
  {
    hide CheckpointedTx;
    if Checkpointed(w', plan) {
      CheckpointedAfter(w.control, plan, w'.control, gen);
    } else {
      SameCheckpointed(w.control, w'.control, gen);
    }
  }

  lemma {:induction false} WorkedEffect(w: World, plan: Plan, c1: C.Control, w2: World, w': World)
    requires C.InitializeCheckpoint(w.control, plan.gen, plan.previousFrontier) == C.Ok(c1) && !Checkpointed(w, plan)
    requires C.IdOf(plan) in w2.control.transactions && w2.control.checkpoints == c1.checkpoints && Worked(w2, plan, w')
    requires forall gen :: CheckpointedTx(w'.control, gen) ==
               CheckpointedTx(w.control, gen) + (if gen == plan.gen && Checkpointed(w', plan) then {plan.tx} else {})
    ensures CallEffect(w, plan, w')
  {
    hide CheckpointedTx, Checkpointed;
  }

  /** What the work after a claim does, seen from before the claim. */
  lemma {:induction false} ClaimedEffect(w: World, plan: Plan, c1: C.Control, lease: Lease)
    requires C.InitializeCheckpoint(w.control, plan.gen, plan.previousFrontier) == C.Ok(c1) && C.Claim(c1, plan).Ok?
    requires var w2 := w.(control := C.Claim(c1, plan).control);
             !Checkpointed(w2, plan) && !Checkpointed(w, plan)
    ensures CallEffect(w, plan,
                       Work(w.(control := C.Claim(c1, plan).control), plan, c1.checkpoints[plan.gen].revision,
                            lease).world)
  {
    hide Work, CheckpointedTx, CallEffect;
    var w2 := w.(control := C.Claim(c1, plan).control);
    var w' := Work(w2, plan, c1.checkpoints[plan.gen].revision, lease).world;
    WorkEffect(w2, plan, c1.checkpoints[plan.gen].revision, lease);
    forall gen ensures CheckpointedTx(w'.control, gen) ==
                         CheckpointedTx(w.control, gen) + if gen == plan.gen && Checkpointed(w', plan) then {plan.tx}
                           else {}
    {
      ClaimStates(c1, plan, gen);
      SameCheckpointed(w.control, c1, gen);
      WorkedStates(w2, plan, w', gen);
    }
    WorkedEffect(w, plan, c1, w2, w');
  }

  lemma {:induction false} CallHasEffect(applying: set<string>, w: World, plan: Plan, lease: Lease)
    ensures CallEffect(w, plan, Apply(applying, w, plan, lease).world)
  {
    hide Work;
    var init := C.InitializeCheckpoint(w.control, plan.gen, plan.previousFrontier);
    if plan.gen in applying && !lease.Spent() && init.Ok? && !lease.Next().Spent() {
      var claim := C.Claim(init.control, plan);
      if claim.Ok? {
        var w2 := w.(control := claim.control);
        forall gen { ClaimStates(init.control, plan, gen); }
        assert forall gen :: CheckpointedTx(init.control, gen) == CheckpointedTx(w.control, gen);
        assert Checkpointed(w2, plan) <==> Checkpointed(w, plan);
        if !Checkpointed(w2, plan) {
          ClaimedEffect(w, plan, init.control, lease.Next().Next());
        }
      }
    }
  }

  /** The plans of a history link up, from `frontier` on. */
  ghost predicate Linked(frontier: string, history: seq<Plan>)
  {
    && (history != [] ==> history[0].previousFrontier == frontier)
    && (forall i :: 0 <= i < |history| - 1 ==> history[i + 1].previousFrontier == history[i].commitLsn)
  }

  /** A history of checkpoints leads from one control store to the other. */
  ghost predicate Chained(c: C.Control, gen: string, history: seq<Plan>, c': C.Control)
  {
    && Revision(c', gen) == Revision(c, gen) + |history|
    && (forall p :: p in history ==> p.gen == gen)
    && (gen in c.checkpoints ==> Linked(c.checkpoints[gen].frontier, history))
    && (history != [] ==> Linked(history[0].previousFrontier, history))
    && (history != [] || gen in c.checkpoints ==> gen in c'.checkpoints)
    && (history != [] ==> c'.checkpoints[gen].frontier == history[|history| - 1].commitLsn)
    && (history == [] && gen in c.checkpoints ==> c'.checkpoints[gen] == c.checkpoints[gen])
  }

  /** Exactly the transactions of the history become checkpointed, each one once. */
  ghost predicate EachOnce(c: C.Control, gen: string, history: seq<Plan>, c': C.Control)
  {
    && CheckpointedTx(c', gen) == CheckpointedTx(c, gen) + (set p | p in history :: p.tx)
    && (forall p :: p in history ==> p.tx !in CheckpointedTx(c, gen))
    && (forall i, j :: 0 <= i < j < |history| ==> history[i].tx != history[j].tx)
  }

  /** A call that moves nothing of the generation. */
  lemma {:induction false} StayChained(w: World, plan: Plan, w1: World, gen: string, tail: seq<Plan>, c': C.Control)
    requires !(plan.gen == gen && Moves(w, plan, w1)) && CallEffect(w, plan, w1)
    requires Chained(w1.control, gen, tail, c') && EachOnce(w1.control, gen, tail, c')
    ensures Chained(w.control, gen, tail, c') && EachOnce(w.control, gen, tail, c')
  {
    hide Moves, CheckpointedTx;
  }

  /**
  Along any run, a generation's revision grows by one for each transaction it
  checkpoints, each is checkpointed once, and each starts at the frontier where
  the one before it committed.
  */
  lemma {:induction false} CheckpointChain(applying: set<string>, w: World, attempts: seq<Attempt>, gen: string)
    ensures Chained(w.control, gen, History(applying, w, attempts, gen), Run(applying, w, attempts).control)
    ensures EachOnce(w.control, gen, History(applying, w, attempts, gen), Run(applying, w, attempts).control)
    decreases |attempts|
  {
    hide Chained, EachOnce, CallEffect, Moves, Apply;
    if attempts == [] {
      NothingChained(w.control, gen);
    } else {
      var plan := attempts[0].plan;
      var w1 := Apply(applying, w, plan, attempts[0].lease).world;
      CallHasEffect(applying, w, plan, attempts[0].lease);
      CheckpointChain(applying, w1, attempts[1..], gen);
      var tail, c' := History(applying, w1, attempts[1..], gen), Run(applying, w, attempts).control;
      if plan.gen == gen && Moves(w, plan, w1) {
        assert History(applying, w, attempts, gen) == [plan] + tail;
        PrependChained(w, plan, w1, tail, c');
        PrependOnce(w, plan, w1, tail, c');
      } else {
        assert History(applying, w, attempts, gen) == tail;
        StayChained(w, plan, w1, gen, tail, c');
      }
    }
  }

  lemma {:induction false} NothingChained(c: C.Control, gen: string)
    ensures Chained(c, gen, [], c) && EachOnce(c, gen, [], c)
  {
    hide CheckpointedTx;
  }

  lemma {:induction false} PrependChained(w: World, plan: Plan, w1: World, tail: seq<Plan>, c': C.Control)
    requires Moves(w, plan, w1) && CallEffect(w, plan, w1) && Chained(w1.control, plan.gen, tail, c')
    ensures Chained(w.control, plan.gen, [plan] + tail, c')
  {
    hide CheckpointedTx, Moves;
    var history := [plan] + tail;
    forall i | 0 <= i < |history| - 1 ensures history[i + 1].previousFrontier == history[i].commitLsn {
      assert history[i + 1] == tail[i];
      if i > 0 { assert history[i] == tail[i - 1] && tail[i - 1 + 1] == tail[i]; }
    }
  }

  lemma {:induction false} PrependOnce(w: World, plan: Plan, w1: World, tail: seq<Plan>, c': C.Control)
    requires Moves(w, plan, w1) && CallEffect(w, plan, w1) && EachOnce(w1.control, plan.gen, tail, c')
    ensures EachOnce(w.control, plan.gen, [plan] + tail, c')
  {
    hide CheckpointedTx;
    InCheckpointed(w.control, plan.gen, plan.tx);
    assert CheckpointedTx(w1.control, plan.gen) == CheckpointedTx(w.control, plan.gen) + {plan.tx};
    OneMoreOnce(CheckpointedTx(w.control, plan.gen), plan, tail, CheckpointedTx(c', plan.gen));
  }

  /** The same on sets of transaction ids. */
  lemma {:induction false} OneMoreOnce(before: set<string>, plan: Plan, tail: seq<Plan>, after: set<string>)
    requires plan.tx !in before && after == before + {plan.tx} + (set p | p in tail :: p.tx)
    requires forall p :: p in tail ==> p.tx !in before + {plan.tx}
    requires forall i, j :: 0 <= i < j < |tail| ==> tail[i].tx != tail[j].tx
    ensures after == before + (set p | p in [plan] + tail :: p.tx)
    ensures forall p :: p in [plan] + tail ==> p.tx !in before
    ensures forall i, j :: 0 <= i < j < |[plan] + tail| ==> ([plan] + tail)[i].tx != ([plan] + tail)[j].tx
  {
    var history := [plan] + tail;
    assert (set p | p in history :: p.tx) == {plan.tx} + (set p | p in tail :: p.tx);
    forall i, j | 0 <= i < j < |history| ensures history[i].tx != history[j].tx {
      assert history[j] == tail[j - 1] && tail[j - 1] in tail;
      if i > 0 { assert history[i] == tail[i - 1]; }
    }
  }

  lemma {:induction false} InCheckpointed(c: C.Control, gen: string, tx: string)
    ensures tx in CheckpointedTx(c, gen) <==>
            (gen, tx) in c.transactions && c.transactions[(gen, tx)].state.CHECKPOINTED?
  {
  }

  lemma {:induction false} DistinctCount(history: seq<Plan>)
    requires forall i, j :: 0 <= i < j < |history| ==> history[i].tx != history[j].tx
    ensures |set p | p in history :: p.tx| == |history|
  {
    var txs := Mapped(history, (p: Plan) => p.tx);
    DistinctSize(txs);
    forall tx ensures tx in (set p | p in history :: p.tx) <==> tx in Elements(txs) {
      if p :| p in history && p.tx == tx {
        var i :| 0 <= i < |history| && history[i] == p;
        assert txs[i] == tx;
      }
      if tx in txs {
        var i :| 0 <= i < |txs| && txs[i] == tx;
        assert history[i] in history;
      }
    }
    assert (set p | p in history :: p.tx) == Elements(txs);
  }

  /** From a fresh store, the revision is the number of checkpointed transactions. */
  lemma {:induction false} RevisionCountsTransactions(applying: set<string>, w: World, attempts: seq<Attempt>,
                                                      gen: string)
    requires w.control == C.EMPTY
    ensures var c := Run(applying, w, attempts).control; Revision(c, gen) == |CheckpointedTx(c, gen)|
  {
    CheckpointChain(applying, w, attempts, gen);
    DistinctCount(History(applying, w, attempts, gen));
    assert CheckpointedTx(w.control, gen) == {};
  }

  /** The plan commits after the frontier it starts from, as interval admission demands. */
  predicate Advancing(plan: Plan)
  {
    0 <= Lsn.Position(plan.previousFrontier) < Lsn.Position(plan.commitLsn)
  }

  lemma {:induction false} LinkedIncreases(history: seq<Plan>, i: nat, j: nat)
    requires i < j < |history| && Linked(history[0].previousFrontier, history)
    requires forall p :: p in history ==> Advancing(p)
    ensures Lsn.Position(history[i].commitLsn) <= Lsn.Position(history[j].previousFrontier)
    ensures Lsn.Position(history[i].commitLsn) < Lsn.Position(history[j].commitLsn)
    ensures Lsn.Position(history[i].previousFrontier) < Lsn.Position(history[j].previousFrontier)
    decreases j
  {
    assert history[i] in history && history[j] in history && history[j - 1] in history;
    assert history[j - 1 + 1].previousFrontier == history[j - 1].commitLsn;
    if i < j - 1 { LinkedIncreases(history, i, j - 1); }
  }

  lemma {:induction false} HistoryIsAttempted(applying: set<string>, w: World, attempts: seq<Attempt>, gen: string,
                                              p: Plan)
    requires p in History(applying, w, attempts, gen)
    ensures exists a :: a in attempts && a.plan == p
    decreases |attempts|
  {
    var w' := Apply(applying, w, attempts[0].plan, attempts[0].lease).world;
    if p in History(applying, w', attempts[1..], gen) {
      HistoryIsAttempted(applying, w', attempts[1..], gen, p);
      var a :| a in attempts[1..] && a.plan == p;
      assert a in attempts;
    } else {
      assert attempts[0] in attempts && attempts[0].plan == p;
    }
  }

  /** Successive checkpoints of a generation strictly increase as 64-bit positions. */
  lemma {:induction false} FrontiersIncrease(applying: set<string>, w: World, attempts: seq<Attempt>, gen: string,
                                             i: nat, j: nat)
    requires forall a :: a in attempts ==> Advancing(a.plan)
    requires i < j < |History(applying, w, attempts, gen)|
    ensures var h := History(applying, w, attempts, gen);
      && Lsn.Position(h[i].commitLsn) < Lsn.Position(h[j].commitLsn)
      && Lsn.Position(h[i].previousFrontier) < Lsn.Position(h[j].previousFrontier)
  {
    var h := History(applying, w, attempts, gen);
    CheckpointChain(applying, w, attempts, gen);
    forall p | p in h ensures Advancing(p) { HistoryIsAttempted(applying, w, attempts, gen, p); }
    LinkedIncreases(h, i, j);
  }

  /**
  Every plan of one manifest starts at the manifest's frontier, so no run ever
  checkpoints two transactions of one manifest.
  */
  lemma {:induction false} OneTransactionPerManifest(applying: set<string>, w: World, attempts: seq<Attempt>, a: Plan,
                                                     b: Plan)
    requires forall x :: x in attempts ==> Advancing(x.plan)
    requires a.gen == b.gen && a.previousFrontier == b.previousFrontier && a.tx != b.tx
    requires a in History(applying, w, attempts, a.gen)
    ensures b !in History(applying, w, attempts, a.gen)
  {
    hide History, Lsn.Position;
    var h := History(applying, w, attempts, a.gen);
    if b in h {
      var i :| 0 <= i < |h| && h[i] == a;
      var j :| 0 <= j < |h| && h[j] == b;
      if i < j { FrontiersIncrease(applying, w, attempts, a.gen, i, j); }
      if j < i { FrontiersIncrease(applying, w, attempts, a.gen, j, i); }
    }
  }
}
