/**
What a call answers.  A replay is reported exactly for a transaction that was already
checkpointed with the plan's own events; other events under a known transaction id are
refused and leave everything as it was.
*/
module CdcReplay {
  import opened Common
  import opened Sorting
  import opened Events
  import opened CdcApply
  import opened CdcConvergence
  import opened CdcInvariant
  import opened CdcRestamp
  import C = CdcControl
  import Chain = CdcChain

  /** The stored transaction has the plan's events, whenever they were ingested. */
  predicate SameEvents(w: World, plan: Plan)
  {
    var id := (plan.gen, plan.tx);
    && id in w.control.transactions
    && var digest := w.control.transactions[id].digest;
    && digest.TransactionInput? && digest.manifest == plan.manifest
    && digest.projections == Projections(plan.events)
  }

  /** The transaction is known with other events. */
  predicate OtherEvents(w: World, plan: Plan)
  {
    (plan.gen, plan.tx) in w.control.transactions && !SameEvents(w, plan)
  }

  predicate Done(w: World, plan: Plan)
  {
    var id := (plan.gen, plan.tx);
    id in w.control.transactions && w.control.transactions[id].state.CHECKPOINTED?
  }

  /** The generation's checkpoint has not moved yet and stands elsewhere. */
  predicate StartsElsewhere(w: World, plan: Plan)
  {
    && plan.gen in w.control.checkpoints && w.control.checkpoints[plan.gen].revision == 0
    && w.control.checkpoints[plan.gen].frontier != plan.previousFrontier
  }

  /** Room for the two writes that open a call. */
  predicate OpensAlive(lease: Lease) { lease.Unlimited? || lease.n >= 2 }

  /** A claimed transaction's generation has a checkpoint, moved once a transaction is checkpointed. */
  ghost predicate Anchored(w: World)
  {
    forall id :: id in w.control.transactions ==>
      && id.0 in w.control.checkpoints
      && w.control.transactions[id].digest.TransactionInput?
      && (w.control.transactions[id].state.CHECKPOINTED? ==> w.control.checkpoints[id.0].revision > 0)
  }

  lemma {:induction false} OpeningKeeps(w: World, plan: Plan)
    requires Anchored(w) && Assembled(plan)
    ensures match C.InitializeCheckpoint(w.control, plan.gen, plan.previousFrontier)
            case Err(_) => true
            case Ok(c1) =>
              && Anchored(w.(control := c1))
              && (C.Claim(c1, plan).Ok? ==> Anchored(w.(control := C.Claim(c1, plan).control)))
  {
  }

  lemma {:induction false} WorkKeeps(w: World, plan: Plan, lease: Lease)
    requires Anchored(w) && C.IdOf(plan) in w.control.transactions && !Checkpointed(w, plan)
    requires plan.gen in w.control.checkpoints
    ensures Anchored(Work(w, plan, w.control.checkpoints[plan.gen].revision, lease).world)
  {
    hide Work;
    Chain.WorkEffect(w, plan, w.control.checkpoints[plan.gen].revision, lease);
  }

  lemma {:induction false} CallAnchors(applying: set<string>, w: World, plan: Plan, lease: Lease)
    requires Anchored(w) && Assembled(plan)
    ensures Anchored(Apply(applying, w, plan, lease).world)
  {
    hide Work, Anchored, Assembled;
    OpeningKeeps(w, plan);
    var init := C.InitializeCheckpoint(w.control, plan.gen, plan.previousFrontier);
    if init.Ok? && C.Claim(init.control, plan).Ok? {
      var w2 := w.(control := C.Claim(init.control, plan).control);
      if !Checkpointed(w2, plan) && plan.gen in applying && !lease.Spent() && !lease.Next().Spent() {
        ClaimKeepsCheckpoints(init.control, plan);
        WorkKeeps(w2, plan, lease.Next().Next());
      }
    }
  }

  lemma ClaimKeepsCheckpoints(c: C.Control, plan: Plan)
    requires C.Claim(c, plan).Ok?
    ensures C.Claim(c, plan).control.checkpoints == c.checkpoints
    ensures C.IdOf(plan) in C.Claim(c, plan).control.transactions
  {
  }

  lemma {:induction false} RunAnchors(applying: set<string>, w: World, attempts: seq<Attempt>)
    requires Anchored(w) && forall a :: a in attempts ==> Assembled(a.plan)
    ensures Anchored(Run(applying, w, attempts))
    decreases |attempts|
  {
    hide Anchored, Assembled, Apply;
    if attempts != [] {
      assert attempts[0] in attempts;
      CallAnchors(applying, w, attempts[0].plan, attempts[0].lease);
      RunAnchors(applying, Apply(applying, w, attempts[0].plan, attempts[0].lease).world, attempts[1..]);
    }
  }

  lemma {:induction false} SameEventsIsDigest(w: World, plan: Plan)
    requires Anchored(w) && Assembled(plan)
    ensures C.IdOf(plan) in w.control.transactions ==>
      (SameEvents(w, plan) <==> w.control.transactions[C.IdOf(plan)].digest == plan.digest)
  {
  }

  /** A call that does work reports no replay, and ends with the transaction checkpointed if it returns. */
  lemma {:induction false} WorkAnswers(w: World, plan: Plan, expected: nat, lease: Lease)
    requires C.IdOf(plan) in w.control.transactions && !Checkpointed(w, plan)
    ensures var call := Work(w, plan, expected, lease);
      call.Returned? ==> !call.replay && Checkpointed(call.world, plan)
  {
    hide VisitTables, C.Bury, Lists, C.ReceiptTables;
    VisitsGrow(w, plan, plan.Visits(), lease);
    VisitsReturnNever(w, plan, plan.Visits(), lease);
  }

  lemma {:induction false} VisitsReturnNever(w: World, plan: Plan, names: seq<string>, lease: Lease)
    ensures var p := VisitTables(w, plan, names, lease); p.Halt? ==> !p.call.Returned?
    decreases |names|
  {
    if names != [] {
      var p := VisitTable(w, plan, names[0], lease);
      if p.Continue? { VisitsReturnNever(p.world, plan, names[1..], p.lease); }
    }
  }

  /**
  The answer of a call that returns: the transaction is checkpointed afterwards, with
  the plan's events, and a replay is reported exactly if it was checkpointed before.
  */
  lemma {:induction false} ReturnAnswers(applying: set<string>, w: World, plan: Plan, lease: Lease)
    requires Anchored(w) && Assembled(plan)
    ensures var call := Apply(applying, w, plan, lease);
      call.Returned? ==> Done(call.world, plan) && (call.replay <==> Done(w, plan)) && !OtherEvents(w, plan)
  {
    hide Work, Assembled;
    SameEventsIsDigest(w, plan);
    var init := C.InitializeCheckpoint(w.control, plan.gen, plan.previousFrontier);
    if init.Ok? && C.Claim(init.control, plan).Ok? && !lease.Spent() && !lease.Next().Spent() {
      var w2 := w.(control := C.Claim(init.control, plan).control);
      if !Checkpointed(w2, plan) {
        WorkAnswers(w2, plan, init.control.checkpoints[plan.gen].revision, lease.Next().Next());
      }
    }
  }

  /** Exactly when a call reports a replay, and what it then does: nothing. */
  lemma {:induction false} ReplayIff(applying: set<string>, w: World, plan: Plan, lease: Lease)
    requires Anchored(w) && Assembled(plan)
    ensures var call := Apply(applying, w, plan, lease);
      && (call.Returned? && call.replay <==>
            plan.gen in applying && OpensAlive(lease) && Done(w, plan) && SameEvents(w, plan))
      && (call.Returned? && call.replay ==> call.world == w)
  {
    hide Work, Assembled;
    SameEventsIsDigest(w, plan);
    ReturnAnswers(applying, w, plan, lease);
  }

  /**
  Other events under a known transaction id.  However the call is killed it returns
  nothing and leaves the world alone; and where it lives to compare them it ends in
  CB24C002, unless the generation's first checkpoint stands elsewhere.
  */
  lemma {:induction false} OtherEventsRefused(applying: set<string>, w: World, plan: Plan, lease: Lease)
    requires Anchored(w) && Assembled(plan) && OtherEvents(w, plan)
    ensures var call := Apply(applying, w, plan, lease);
      && !call.Returned? && call.world == w
      && (plan.gen in applying && OpensAlive(lease) && !StartsElsewhere(w, plan) ==>
            call == Raised(w, Control(C.CB24C002_TRANSACTION_REPLAY_CONFLICT)))
      && (call.Raised? ==>
            call.code == if plan.gen !in applying then CB24P001_GENERATION_NOT_CDC_APPLYING
                         else if StartsElsewhere(w, plan) then Control(C.CB24C001_CHECKPOINT_CONFLICT)
                         else Control(C.CB24C002_TRANSACTION_REPLAY_CONFLICT))
  {
    hide Work, Assembled;
    SameEventsIsDigest(w, plan);
  }

  /**
  The same after every run from a fresh store: a call reports a replay if and only if the
  transaction was checkpointed with the plan's events; a transaction's first call never
  does; and other events under a known id end in CB24C002 with nothing changed.
  */
  lemma {:induction false} ReachedReplay(applying: set<string>, start: World, attempts: seq<Attempt>, plan: Plan,
                                         lease: Lease)
    requires Start(start) && Assembled(plan) && forall a :: a in attempts ==> Assembled(a.plan)
    ensures var w := Run(applying, start, attempts);
      var call := Apply(applying, w, plan, lease);
      && (call.Returned? && call.replay <==>
            plan.gen in applying && OpensAlive(lease) && Done(w, plan) && SameEvents(w, plan))
      && (call.Returned? ==> Done(call.world, plan) && (!call.replay <==> !Done(w, plan)))
      && (OtherEvents(w, plan) ==> !call.Returned? && call.world == w)
      && (OtherEvents(w, plan) && plan.gen in applying && OpensAlive(lease) && !StartsElsewhere(w, plan) ==>
            call == Raised(w, Control(C.CB24C002_TRANSACTION_REPLAY_CONFLICT)))
  {
    hide Apply, Assembled, Run, SameEvents, StartsElsewhere;
    var w := Run(applying, start, attempts);
    assert Anchored(start);
    RunAnchors(applying, start, attempts);
    ReplayIff(applying, w, plan, lease);
    ReturnAnswers(applying, w, plan, lease);
    if OtherEvents(w, plan) { OtherEventsRefused(applying, w, plan, lease); }
  }
}
