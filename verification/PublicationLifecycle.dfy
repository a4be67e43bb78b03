/**
The life cycle of generations: eligibility as a reading of the log, when an active
generation stops being PUBLISHED, and that one product's never does.
*/
module PublicationLifecycle {
  import opened Common
  import opened Publication
  import opened PublicationFacts

  predicate Usable(g: Generation) { g.retained && g.readable && !g.retired && g.evidenceValid }

  /** The event rolls back from the generation. */
  predicate Leaves(e: Event, gen: string) { e.action.ROLLBACK? && e.fromGen == Some(gen) }

  ghost predicate EverLeft(s: Store, gen: string) { exists e :: e in s.events && Leaves(e, gen) }

  ghost predicate EverPublished(s: Store, gen: string) { exists e :: e in s.events && Publishes(e, gen) }

  ghost predicate StateFits(s: Store, gen: string)
    requires gen in s.generations
  {
    var g := s.generations[gen];
    && (g.state.PROVEN? <==> !g.everPublished)
    && (g.state.ROLLED_BACK? <==> EverLeft(s, gen))
  }

  /** States are a reading of the log, and active generations have been published. */
  ghost predicate StatesFit(s: Store)
  {
    && (forall gen :: gen in s.generations ==> StateFits(s, gen))
    && (forall gen :: EverLeft(s, gen) ==> gen in s.generations)
    && (forall product :: product in s.pointer ==>
          s.pointer[product].gen in s.generations && s.generations[s.pointer[product].gen].everPublished)
  }

  lemma {:induction false} LeftGrows(s: Store, s': Store, e: Event, gen: string)
    requires s'.events == s.events + [e]
    ensures EverLeft(s', gen) <==> EverLeft(s, gen) || Leaves(e, gen)
  {
    if EverLeft(s, gen) {
      var f :| f in s.events && Leaves(f, gen);
      assert f in s'.events;
    }
    assert e in s'.events;
  }

  lemma {:induction false} MoveKeepsState(s: Store, payload: Payload, r: Receipt, s': Store, gen: string)
    requires Rows(s, payload, r, s') && gen in s.generations && StateFits(s, gen)
    requires EverLeft(s', gen) <==> EverLeft(s, gen) || Leaves(EventOf(r), gen)
    requires r.prior == Some(gen) ==> s.generations[gen].everPublished
    ensures gen in s'.generations && StateFits(s', gen)
  {
    hide EverLeft;
  }

  lemma {:induction false} MoveKeepsStates(s: Store, attempt: string, payload: Payload, r: Receipt, s': Store)
    requires StatesFit(s) && Move(s, attempt, payload, r, s') && Rows(s, payload, r, s')
    ensures StatesFit(s')
  {
    hide EverLeft, SameBindings, StateFits;
    forall gen
      ensures EverLeft(s', gen) <==> EverLeft(s, gen) || Leaves(EventOf(r), gen)
    {
      LeftGrows(s, s', EventOf(r), gen);
    }
    forall gen | gen in s'.generations ensures StateFits(s', gen) { MoveKeepsState(s, payload, r, s', gen); }
  }

  lemma {:induction false} SameState(s: Store, s': Store, gen: string)
    requires gen in s.generations && StateFits(s, gen) && gen in s'.generations && s'.events == s.events
    requires s'.generations[gen].state == s.generations[gen].state
    requires s'.generations[gen].everPublished == s.generations[gen].everPublished
    ensures StateFits(s', gen)
  {
  }

  lemma {:induction false} NewState(s: Store, s': Store, gen: string)
    requires StatesFit(s) && gen !in s.generations && gen in s'.generations && s'.events == s.events
    requires s'.generations[gen].state.PROVEN? && !s'.generations[gen].everPublished
    ensures StateFits(s', gen)
  {
    assert !EverLeft(s, gen);
  }

  /** Only generation rows are added or edited, and no state among them. */
  lemma {:induction false} RowsKeepStates(s: Store, s': Store)
    requires StatesFit(s) && s'.events == s.events && s'.pointer == s.pointer
    requires s.generations.Keys <= s'.generations.Keys
    requires forall gen :: gen in s'.generations ==>
      var g := s'.generations[gen];
      if gen in s.generations
        then g.state == s.generations[gen].state && g.everPublished == s.generations[gen].everPublished
      else g.state.PROVEN? && !g.everPublished
    ensures StatesFit(s')
  {
    hide StateFits, Leaves;
    assert forall gen :: EverLeft(s', gen) <==> EverLeft(s, gen);
    forall gen | gen in s'.generations ensures StateFits(s', gen) {
      if gen in s.generations { SameState(s, s', gen); } else { NewState(s, s', gen); }
    }
  }

  lemma PinKeepsRows(s: Store, product: string, pin: string)
    requires PinAs(s, product, pin).Ok?
    ensures var s' := PinAs(s, product, pin).value.0;
      s'.events == s.events && s'.pointer == s.pointer && s'.generations == s.generations
  {
    hide PinBody;
  }

  lemma FlagsKeepStates(s: Store, gen: string, flags: map<string, bool>)
    requires StatesFit(s)
    ensures StatesFit(Step(s, EligibilityOp(gen, flags)))
  {
    hide StatesFit;
    RowsKeepStates(s, Step(s, EligibilityOp(gen, flags)));
  }

  lemma RegisterKeepsStates(s: Store, body: BindingBody, digest: Digest, contract: string)
    requires StatesFit(s)
    ensures StatesFit(Step(s, RegisterOp(body, digest, contract)))
  {
    hide StatesFit, NewGeneration;
    NewIsProven(body, digest, contract);
    RowsKeepStates(s, Step(s, RegisterOp(body, digest, contract)));
  }

  lemma {:induction false} OtherKeepsStates(s: Store, op: Op)
    requires StatesFit(s) && !op.AttemptOp?
    ensures StatesFit(Step(s, op))
  {
    hide PinAs, StatesFit, Register, SetEligibility;
    match op
    case RegisterOp(body, digest, contract) => RegisterKeepsStates(s, body, digest, contract);
    case EligibilityOp(gen, flags) => FlagsKeepStates(s, gen, flags);
    case PinOp(product, pin) =>
      if PinAs(s, product, pin).Ok? { PinKeepsRows(s, product, pin); }
      RowsKeepStates(s, Step(s, op));
    case InitializeOp(product) => RowsKeepStates(s, Step(s, op));
  }

  lemma NewIsProven(body: BindingBody, digest: Digest, contract: string)
    ensures NewGeneration(body, digest, contract).state.PROVEN? && !NewGeneration(body, digest, contract).everPublished
  {
  }

  lemma {:induction false} StepKeepsStates(s: Store, op: Op)
    requires StatesFit(s)
    ensures StatesFit(Step(s, op))
  {
    hide StatesFit, Act;
    if !op.AttemptOp? {
      OtherKeepsStates(s, op);
    } else if Act(s, op.attempt, op.payload).Ok? {
      AttemptKeepsStates(s, op.attempt, op.payload);
    }
  }

  lemma {:induction false} RunKeepsStates(s: Store, ops: seq<Op>)
    requires StatesFit(s)
    ensures StatesFit(Run(s, ops))
    decreases |ops|
  {
    hide StatesFit, Step;
    if ops != [] {
      StepKeepsStates(s, ops[0]);
      RunKeepsStates(Step(s, ops[0]), ops[1..]);
    }
  }

  lemma {:induction false} AttemptKeepsStates(s: Store, attempt: string, payload: Payload)
    requires StatesFit(s) && Act(s, attempt, payload).Ok?
    ensures StatesFit(Act(s, attempt, payload).value.store)
  {
    hide StatesFit, PublishNew, FallbackNew, RollbackNew, Move, Rows;
    if attempt !in s.attempts {
      ActMoves(s, attempt, payload);
      ActRows(s, attempt, payload);
      MoveKeepsStates(s, attempt, payload, Act(s, attempt, payload).value.receipt,
                      Act(s, attempt, payload).value.store);
    }
  }

  lemma StatesOfRun(ops: seq<Op>)
    ensures Inv(Run(EMPTY, ops)) && StatesFit(Run(EMPTY, ops))
  {
    hide Inv, Run;
    PointerIsFoldOfLog(ops);
    RunKeepsStates(EMPTY, ops);
  }

  /**
  Eligibility is a reading of the log.  In every run: a registered, usable generation may
  be published exactly if no event ever published it, and rolled back to exactly if some
  event published it and none rolled back from it.
  */
  lemma {:induction false} EligibleIsHistory(ops: seq<Op>, gen: string)
    ensures var s := Run(EMPTY, ops);
      && (Eligible(s, gen, false).Ok? <==>
            gen in s.generations && Usable(s.generations[gen]) && !EverPublished(s, gen))
      && (Eligible(s, gen, true).Ok? <==>
            gen in s.generations && Usable(s.generations[gen]) && EverPublished(s, gen) && !EverLeft(s, gen))
      && (forall rollback :: Eligible(s, gen, rollback).Err? ==>
            Eligible(s, gen, rollback).code ==
              if gen in s.generations then CB27P006_GENERATION_INELIGIBLE else CB27P004_GENERATION_UNKNOWN)
  {
    hide Run, Chains, Ledger, Pins, EverLeft;
    var s := Run(EMPTY, ops);
    StatesOfRun(ops);
    if gen in s.generations { assert StateFits(s, gen); }
  }

  /** Every active generation is PUBLISHED. */
  ghost predicate ActivePublished(s: Store)
  {
    forall product :: product in s.pointer ==>
      s.pointer[product].gen in s.generations && s.generations[s.pointer[product].gen].state.PUBLISHED?
  }

  /** May the generation be rolled back to? */
  predicate Target(s: Store, gen: string)
  {
    && gen in s.generations && s.generations[gen].everPublished && !s.generations[gen].state.ROLLED_BACK?
    && Usable(s.generations[gen])
  }

  /** What a caller can check before a rollback: these are all its guards. */
  predicate Granted(s: Store, payload: Payload)
    requires payload.Rollback?
  {
    && payload.authorization != ""
    && payload.product in s.clock && payload.product in s.pointer
    && payload.expected == s.clock[payload.product].revision
    && payload.gen != s.pointer[payload.product].gen
    && Target(s, payload.gen)
  }

  /** A new rollback succeeds exactly under its guards. */
  lemma {:induction false} RollbackIff(s: Store, attempt: string, payload: Payload)
    requires Chains(s) && Ledger(s) && StatesFit(s) && payload.Rollback? && attempt !in s.attempts
    ensures Act(s, attempt, payload).Ok? <==> Granted(s, payload)
  {
    hide Chains, Ledger, EverLeft;
    if payload.product in s.clock { CurrentIsSound(s, payload.product); }
    ActIsSound(s, attempt, payload);
    assert payload.gen in s.generations ==> StateFits(s, payload.gen);
  }

  /** A granted rollback away from a generation which another product still has active. */
  ghost predicate Strands(s: Store, op: Op)
  {
    && op.AttemptOp? && op.payload.Rollback? && op.attempt !in s.attempts && Granted(s, op.payload)
    && exists other :: other != op.payload.product && other in s.pointer
         && s.pointer[other].gen == s.pointer[op.payload.product].gen
  }

  /**
  Active generations stay PUBLISHED under every operation, except exactly under a
  granted rollback away from a generation that another product has active.
  */
  lemma {:induction false} ActiveStaysPublished(s: Store, op: Op)
    requires Inv(s) && StatesFit(s) && ActivePublished(s)
    ensures ActivePublished(Step(s, op)) <==> !Strands(s, op)
  {
    hide Chains, Ledger, Pins, Lifecycle, StatesFit, Granted, Act, Move, Rows, ActivePublished, Strands;
    if op.AttemptOp? && op.attempt !in s.attempts {
      if op.payload.Rollback? { RollbackIff(s, op.attempt, op.payload); }
      NewAttemptPublished(s, op);
    } else {
      OtherStaysPublished(s, op);
    }
  }

  lemma {:induction false} OtherStaysPublished(s: Store, op: Op)
    requires ActivePublished(s) && (op.AttemptOp? ==> op.attempt in s.attempts)
    ensures ActivePublished(Step(s, op)) && !Strands(s, op)
  {
  }

  lemma {:induction false} NewAttemptPublished(s: Store, op: Op)
    requires Inv(s) && StatesFit(s) && ActivePublished(s) && op.AttemptOp? && op.attempt !in s.attempts
    requires op.payload.Rollback? ==> (Act(s, op.attempt, op.payload).Ok? <==> Granted(s, op.payload))
    ensures ActivePublished(Step(s, op)) <==> !Strands(s, op)
  {
    hide Chains, Ledger, Pins, Lifecycle, Granted, Act, StatesFit;
    if Act(s, op.attempt, op.payload).Ok? {
      var m := Act(s, op.attempt, op.payload).value;
      ActMoves(s, op.attempt, op.payload);
      ActRows(s, op.attempt, op.payload);
      if op.payload.Rollback? {
        RollbackStrands(s, op, m);
      }
    }
  }

  lemma {:induction false} RollbackStrands(s: Store, op: Op, m: Moved)
    requires StatesFit(s) && ActivePublished(s)
    requires op.AttemptOp? && op.payload.Rollback? && op.attempt !in s.attempts && Granted(s, op.payload)
    requires Move(s, op.attempt, op.payload, m.receipt, m.store) && Rows(s, op.payload, m.receipt, m.store)
    ensures ActivePublished(m.store) <==> !Strands(s, op)
  {
    hide Target, EverLeft;
    assert StateFits(s, op.payload.gen);
    var product, prior := op.payload.product, m.receipt.prior.value;
    assert product in s.pointer && s.pointer[product].gen == prior && prior in s.generations;
    assert m.store.generations[prior].state.ROLLED_BACK?;
    if other :| other != product && other in s.pointer && s.pointer[other].gen == prior {
      assert m.store.pointer[other] == s.pointer[other];
    } else {
      forall q | q in m.store.pointer
        ensures m.store.pointer[q].gen in m.store.generations
        ensures m.store.generations[m.store.pointer[q].gen].state.PUBLISHED?
      {
        if q != product { assert m.store.pointer[q] == s.pointer[q]; }
      }
    }
  }

  /** The run concerns one product only. */
  ghost predicate SingleProduct(ops: seq<Op>, product: string)
  {
    forall op :: op in ops && op.InitializeOp? ==> op.product == product
  }

  lemma {:induction false} NothingToStrand(s: Store, op: Op, product: string)
    requires Chains(s) && s.clock.Keys <= {product}
    ensures !Strands(s, op)
  {
    forall p | p in s.pointer ensures p == product {
      assert Folded(s, p);
      assert p in s.clock.Keys;
    }
  }

  lemma {:induction false} StepOneClock(s: Store, op: Op, product: string)
    requires s.clock.Keys <= {product} && (op.InitializeOp? ==> op.product == product)
    ensures Step(s, op).clock.Keys <= {product}
  {
    if op.AttemptOp? && Act(s, op.attempt, op.payload).Ok? && op.attempt !in s.attempts {
      ActMoves(s, op.attempt, op.payload);
    }
  }

  lemma {:induction false} SingleProductLifecycle(s: Store, ops: seq<Op>, product: string)
    requires Inv(s) && StatesFit(s) && ActivePublished(s) && s.clock.Keys <= {product} && SingleProduct(ops, product)
    ensures ActivePublished(Run(s, ops))
    decreases |ops|
  {
    hide Inv, StatesFit, ActivePublished, Step, Strands;
    if ops != [] {
      assert ops[0] in ops && forall op :: op in ops[1..] ==> op in ops;
      assert Chains(s) by { InvChains(s); }
      NothingToStrand(s, ops[0], product);
      ActiveStaysPublished(s, ops[0]);
      StepKeeps(s, ops[0]);
      StepKeepsStates(s, ops[0]);
      StepOneClock(s, ops[0], product);
      SingleProductLifecycle(Step(s, ops[0]), ops[1..], product);
    }
  }

  lemma InvChains(s: Store)
    requires Inv(s)
    ensures Chains(s)
  {
  }

  /** With one product, the active generation is PUBLISHED after every run. */
  lemma ActiveIsPublished(ops: seq<Op>, product: string)
    requires SingleProduct(ops, product)
    ensures ActivePublished(Run(EMPTY, ops))
  {
    StatesOfRun([]);
    SingleProductLifecycle(EMPTY, ops, product);
  }

  lemma {:induction false} RolledBackStays(s: Store, ops: seq<Op>, gen: string)
    requires gen in s.generations && s.generations[gen].state.ROLLED_BACK?
    ensures var s' := Run(s, ops); gen in s'.generations && s'.generations[gen].state.ROLLED_BACK?
    decreases |ops|
  {
    if ops != [] {
      if ops[0].AttemptOp? && Act(s, ops[0].attempt, ops[0].payload).Ok? && ops[0].attempt !in s.attempts {
        ActRows(s, ops[0].attempt, ops[0].payload);
      }
      RolledBackStays(Step(s, ops[0]), ops[1..], gen);
    }
  }

  /** With one product, a generation once rolled back is never active again. */
  lemma {:induction false} NeverActiveAgain(before: seq<Op>, after: seq<Op>, product: string, gen: string)
    requires SingleProduct(before, product) && SingleProduct(after, product)
    requires var s := Run(EMPTY, before); gen in s.generations && s.generations[gen].state.ROLLED_BACK?
    ensures var s := Run(Run(EMPTY, before), after);
      forall p :: p in s.pointer ==> s.pointer[p].gen != gen
  {
    hide Inv, StatesFit, Run;
    var s := Run(EMPTY, before);
    StatesOfRun(before);
    ActiveIsPublished(before, product);
    OneClock(EMPTY, before, product);
    SingleProductLifecycle(s, after, product);
    RolledBackStays(s, after, gen);
  }

  lemma {:induction false} OneClock(s: Store, ops: seq<Op>, product: string)
    requires s.clock.Keys <= {product} && SingleProduct(ops, product)
    ensures Run(s, ops).clock.Keys <= {product}
    decreases |ops|
  {
    if ops != [] {
      assert ops[0] in ops && forall op :: op in ops[1..] ==> op in ops;
      StepOneClock(s, ops[0], product);
      OneClock(Step(s, ops[0]), ops[1..], product);
    }
  }

  function RollbackOp(s: Store, attempt: string, product: string, gen: string): Op
    requires product in s.clock
  {
    AttemptOp(attempt, Rollback(product, gen, s.clock[product].revision, "operator"))
  }

  /** What a new attempt that succeeds does. */
  lemma {:induction false} NewMove(s: Store, attempt: string, payload: Payload)
    requires Chains(s) && Ledger(s) && attempt !in s.attempts && Act(s, attempt, payload).Ok?
    ensures var m := Act(s, attempt, payload).value;
      && Step(s, AttemptOp(attempt, payload)) == m.store && Chains(m.store) && Ledger(m.store)
      && Move(s, attempt, payload, m.receipt, m.store) && Rows(s, payload, m.receipt, m.store)
  {
    hide Chains, Ledger, Act, Move, Rows;
    var m := Act(s, attempt, payload).value;
    ActMoves(s, attempt, payload);
    ActRows(s, attempt, payload);
    MoveKeepsChains(s, attempt, payload, m.receipt, m.store);
    MoveKeepsLedger(s, attempt, payload, m.receipt, m.store);
  }

  lemma {:induction false} RollbackActs(s: Store, attempt: string, product: string, gen: string)
    requires Chains(s) && Ledger(s) && product in s.clock && product in s.pointer && attempt !in s.attempts
    requires s.pointer[product].gen != gen && Eligible(s, gen, true).Ok?
    ensures Act(s, attempt, RollbackOp(s, attempt, product, gen).payload).Ok?
  {
    hide Chains, Ledger, Eligible;
    CurrentIsSound(s, product);
    ActIsSound(s, attempt, RollbackOp(s, attempt, product, gen).payload);
  }

  /** A rollback to another usable published generation succeeds, and touches only its product. */
  lemma {:induction false} RollbackSucceeds(s: Store, attempt: string, product: string, gen: string)
    requires Chains(s) && Ledger(s) && product in s.clock && product in s.pointer && attempt !in s.attempts
    requires s.pointer[product].gen != gen && Eligible(s, gen, true).Ok?
    ensures var s' := Step(s, RollbackOp(s, attempt, product, gen));
      && Chains(s') && Ledger(s')
      && s'.pointer.Keys == s.pointer.Keys && s'.clock.Keys == s.clock.Keys && s'.pointer[product].gen == gen
      && (forall other :: other != product && other in s.pointer ==> s'.pointer[other] == s.pointer[other])
      && s'.clock[product].revision == s.clock[product].revision + 1
      && (forall other :: other != product && other in s.clock ==> s'.clock[other] == s.clock[other])
      && s'.generations == RolledBack(s.generations, s.pointer[product].gen)
      && s'.attempts.Keys == s.attempts.Keys + {attempt}
  {
    hide Chains, Ledger, Act, Step, Eligible, SameBindings;
    RollbackActs(s, attempt, product, gen);
    NewMove(s, attempt, RollbackOp(s, attempt, product, gen).payload);
  }

  /** The generation of a proof, whose frontier is its own name. */
  function BodyOf(gen: string): BindingBody { BindingBody(gen, gen, "", "", map[], "") }

  function RegisterOf(gen: string): Op { RegisterOp(BodyOf(gen), OfBody(BodyOf(gen)), "") }

  function PublishOp(s: Store, attempt: string, product: string, gen: string): Op
    requires product in s.clock
  {
    AttemptOp(attempt, Publish(product, gen, s.clock[product].revision, ""))
  }

  lemma {:induction false} PublishActs(s: Store, attempt: string, product: string, gen: string)
    requires Chains(s) && Ledger(s) && product in s.clock && attempt !in s.attempts && Eligible(s, gen, false).Ok?
    ensures Act(s, attempt, PublishOp(s, attempt, product, gen).payload).Ok?
  {
    hide Chains, Ledger, Eligible;
    CurrentIsSound(s, product);
    ActIsSound(s, attempt, PublishOp(s, attempt, product, gen).payload);
  }

  /** A publication of an eligible generation succeeds, and touches only its product. */
  lemma {:induction false} PublishSucceeds(s: Store, attempt: string, product: string, gen: string)
    requires Chains(s) && Ledger(s) && product in s.clock && attempt !in s.attempts && Eligible(s, gen, false).Ok?
    ensures var s' := Step(s, PublishOp(s, attempt, product, gen));
      && Chains(s') && Ledger(s')
      && s'.pointer.Keys == s.pointer.Keys + {product} && s'.clock.Keys == s.clock.Keys
      && s'.pointer[product].gen == gen
      && (forall other :: other != product && other in s.pointer ==> s'.pointer[other] == s.pointer[other])
      && s'.clock[product].revision == s.clock[product].revision + 1
      && (forall other :: other != product && other in s.clock ==> s'.clock[other] == s.clock[other])
      && s'.generations == s.generations[gen := s.generations[gen].(state := PUBLISHED, everPublished := true)]
      && s'.attempts.Keys == s.attempts.Keys + {attempt}
  {
    hide Chains, Ledger, Act, Step, Eligible, SameBindings;
    PublishActs(s, attempt, product, gen);
    NewMove(s, attempt, PublishOp(s, attempt, product, gen).payload);
  }

  /** Two products and three registered generations. */
  function Prepared(): Store
  {
    EMPTY.(clock := map["a" := Clock(0, SOURCE_FALLBACK), "b" := Clock(0, SOURCE_FALLBACK)],
           generations := map["g1" := NewGeneration(BodyOf("g1"), OfBody(BodyOf("g1")), ""),
                              "g2" := NewGeneration(BodyOf("g2"), OfBody(BodyOf("g2")), ""),
                              "g3" := NewGeneration(BodyOf("g3"), OfBody(BodyOf("g3")), "")])
  }

  const PREPARE := [InitializeOp("a"), InitializeOp("b"), RegisterOf("g1"), RegisterOf("g2"), RegisterOf("g3")]

  lemma {:induction false} RunAppend(s: Store, front: seq<Op>, op: Op)
    ensures Run(s, front + [op]) == Step(Run(s, front), op)
    decreases |front|
  {
    hide Step;
    if front == [] {
      assert [] + [op] == [op] && [op][1..] == [];
    } else {
      assert (front + [op])[0] == front[0] && (front + [op])[1..] == front[1..] + [op];
      RunAppend(Step(s, front[0]), front[1..], op);
    }
  }

  lemma {:induction false} PreparedIsReached()
    ensures Run(EMPTY, PREPARE) == Prepared()
  {
    hide NewGeneration;
    assert PREPARE == [] + [InitializeOp("a")] + [InitializeOp("b")] + [RegisterOf("g1")] + [RegisterOf("g2")]
        + [RegisterOf("g3")];
    RunAppend(EMPTY, [], InitializeOp("a"));
    RunAppend(EMPTY, [InitializeOp("a")], InitializeOp("b"));
    RunAppend(EMPTY, [InitializeOp("a"), InitializeOp("b")], RegisterOf("g1"));
    RunAppend(EMPTY, [InitializeOp("a"), InitializeOp("b"), RegisterOf("g1")], RegisterOf("g2"));
    RunAppend(EMPTY, [InitializeOp("a"), InitializeOp("b"), RegisterOf("g1"), RegisterOf("g2")], RegisterOf("g3"));
  }

  /** What the store looks like: active generations, revisions, attempts and generation states. */
  datatype View = View(active: map<string, string>, revisions: map<string, nat>, attempts: set<string>,
                       states: map<string, State>)

  ghost predicate Actives(pointer: map<string, Pointer>, active: map<string, string>)
  {
    pointer.Keys == active.Keys && forall p :: p in active ==> pointer[p].gen == active[p]
  }

  ghost predicate Revisions(clock: map<string, Clock>, revisions: map<string, nat>)
  {
    clock.Keys == revisions.Keys && forall p :: p in revisions ==> clock[p].revision == revisions[p]
  }

  ghost predicate States(generations: map<string, Generation>, states: map<string, State>)
  {
    forall g :: g in states ==>
      && g in generations && Usable(generations[g]) && generations[g].state == states[g]
      && (generations[g].everPublished <==> !states[g].PROVEN?)
  }

  ghost predicate Stands(s: Store, v: View)
  {
    && Chains(s) && Ledger(s) && s.attempts.Keys == v.attempts
    && Actives(s.pointer, v.active) && Revisions(s.clock, v.revisions) && States(s.generations, v.states)
  }

  lemma ActivesMove(pointer: map<string, Pointer>, active: map<string, string>, pointer': map<string, Pointer>,
                    product: string)
    requires Actives(pointer, active) && pointer'.Keys == pointer.Keys + {product}
    requires forall other :: other != product && other in pointer ==> pointer'[other] == pointer[other]
    ensures Actives(pointer', active[product := pointer'[product].gen])
  {
  }

  lemma RevisionsMove(clock: map<string, Clock>, revisions: map<string, nat>, clock': map<string, Clock>,
                      product: string)
    requires Revisions(clock, revisions) && clock'.Keys == clock.Keys && product in clock
    requires forall other :: other != product && other in clock ==> clock'[other] == clock[other]
    ensures Revisions(clock', revisions[product := clock'[product].revision])
  {
  }

  function Published(v: View, attempt: string, product: string, gen: string): View
    requires product in v.revisions
  {
    View(v.active[product := gen], v.revisions[product := v.revisions[product] + 1], v.attempts + {attempt},
         v.states[gen := PUBLISHED])
  }

  function RolledTo(v: View, attempt: string, product: string, gen: string): View
    requires product in v.revisions && product in v.active
  {
    View(v.active[product := gen], v.revisions[product := v.revisions[product] + 1], v.attempts + {attempt},
         v.states[v.active[product] := ROLLED_BACK])
  }

  lemma ViewMeans(s: Store, v: View, product: string)
    requires Stands(s, v) && product in v.revisions
    ensures product in s.clock && s.clock[product].revision == v.revisions[product] && s.attempts.Keys == v.attempts
    ensures s.pointer.Keys == v.active.Keys && (product in v.active ==> s.pointer[product].gen == v.active[product])
  {
    hide Chains, Ledger, States;
  }

  lemma EligibleInView(s: Store, v: View, gen: string)
    requires Stands(s, v) && gen in v.states
    ensures v.states[gen].PROVEN? ==> Eligible(s, gen, false).Ok?
    ensures v.states[gen].PUBLISHED? ==> Eligible(s, gen, true).Ok?
  {
    hide Chains, Ledger;
  }

  lemma PublishedStates(s: Store, s': Store, states: map<string, State>, gen: string)
    requires States(s.generations, states) && gen in states
    requires s'.generations == s.generations[gen := s.generations[gen].(state := PUBLISHED, everPublished := true)]
    ensures States(s'.generations, states[gen := PUBLISHED])
  {
  }

  lemma RolledStates(s: Store, s': Store, states: map<string, State>, gen: string)
    requires States(s.generations, states) && gen in states && !states[gen].PROVEN?
    requires s'.generations == RolledBack(s.generations, gen)
    ensures States(s'.generations, states[gen := ROLLED_BACK])
  {
  }

  lemma {:induction false} PublishStands(s: Store, v: View, attempt: string, product: string, gen: string)
    requires Stands(s, v) && product in v.revisions && attempt !in v.attempts && gen in v.states
    requires v.states[gen].PROVEN?
    ensures Stands(Step(s, AttemptOp(attempt, Publish(product, gen, v.revisions[product], ""))),
                   Published(v, attempt, product, gen))
  {
    hide Chains, Ledger, Step, Eligible, Actives, Revisions, States;
    ViewMeans(s, v, product);
    EligibleInView(s, v, gen);
    PublishSucceeds(s, attempt, product, gen);
    var s' := Step(s, PublishOp(s, attempt, product, gen));
    ActivesMove(s.pointer, v.active, s'.pointer, product);
    RevisionsMove(s.clock, v.revisions, s'.clock, product);
    assert States(s'.generations, v.states[gen := PUBLISHED]) by { PublishedStates(s, s', v.states, gen); }
  }

  lemma {:induction false} RollbackStands(s: Store, v: View, attempt: string, product: string, gen: string)
    requires Stands(s, v) && product in v.revisions && product in v.active && attempt !in v.attempts
    requires gen in v.states && v.states[gen].PUBLISHED? && v.active[product] != gen
    requires v.active[product] in v.states && !v.states[v.active[product]].PROVEN?
    ensures Stands(Step(s, AttemptOp(attempt, Rollback(product, gen, v.revisions[product], "operator"))),
                   RolledTo(v, attempt, product, gen))
  {
    hide Chains, Ledger, Step, Eligible, Actives, Revisions, States, RolledBack;
    EligibleInView(s, v, gen);
    ViewMeans(s, v, product);
    RollbackSucceeds(s, attempt, product, gen);
    var s' := Step(s, RollbackOp(s, attempt, product, gen));
    ActivesMove(s.pointer, v.active, s'.pointer, product);
    RevisionsMove(s.clock, v.revisions, s'.clock, product);
    assert States(s'.generations, v.states[v.active[product] := ROLLED_BACK]) by {
      RolledStates(s, s', v.states, v.active[product]);
    }
  }

  lemma {:induction false} PublishedRun(ops: seq<Op>, v: View, attempt: string, product: string, gen: string, op: Op)
    requires Stands(Run(EMPTY, ops), v) && product in v.revisions && attempt !in v.attempts
    requires gen in v.states && v.states[gen].PROVEN?
    requires op == AttemptOp(attempt, Publish(product, gen, v.revisions[product], ""))
    ensures Stands(Run(EMPTY, ops + [op]), Published(v, attempt, product, gen))
  {
    hide Stands, Step, Run;
    RunAppend(EMPTY, ops, op);
    PublishStands(Run(EMPTY, ops), v, attempt, product, gen);
  }

  lemma {:induction false} RolledRun(ops: seq<Op>, v: View, attempt: string, product: string, gen: string, op: Op)
    requires Stands(Run(EMPTY, ops), v) && product in v.revisions && product in v.active && attempt !in v.attempts
    requires gen in v.states && v.states[gen].PUBLISHED? && v.active[product] != gen
    requires v.active[product] in v.states && !v.states[v.active[product]].PROVEN?
    requires op == AttemptOp(attempt, Rollback(product, gen, v.revisions[product], "operator"))
    ensures Stands(Run(EMPTY, ops + [op]), RolledTo(v, attempt, product, gen))
  {
    hide Stands, Step, Run;
    RunAppend(EMPTY, ops, op);
    RollbackStands(Run(EMPTY, ops), v, attempt, product, gen);
  }

  const PREPARED := View(map[], map["a" := 0, "b" := 0], {}, map["g1" := PROVEN, "g2" := PROVEN, "g3" := PROVEN])

  lemma {:induction false} PreparedViews()
    ensures var s := Prepared();
      && s.clock.Keys == PREPARED.revisions.Keys && s.pointer.Keys == PREPARED.active.Keys
      && s.attempts.Keys == PREPARED.attempts
      && (forall p :: p in PREPARED.revisions ==> s.clock[p].revision == PREPARED.revisions[p])
      && forall g :: g in PREPARED.states ==>
           g in s.generations && Usable(s.generations[g]) && s.generations[g].state.PROVEN?
           && !s.generations[g].everPublished
  {
    var s := Prepared();
    assert s.clock.Keys == {"a", "b"} == PREPARED.revisions.Keys;
    assert s.pointer.Keys == {} == PREPARED.active.Keys && s.attempts.Keys == {};
    forall g | g in PREPARED.states
      ensures g in s.generations && s.generations[g] == NewGeneration(BodyOf(g), OfBody(BodyOf(g)), "")
    {
      assert g == "g1" || g == "g2" || g == "g3";
    }
  }

  lemma {:induction false} PreparedStands()
    ensures Stands(Run(EMPTY, PREPARE), PREPARED)
  {
    hide Run, PREPARE, Chains, Ledger, Pins, Lifecycle, Prepared, Usable;
    PreparedIsReached();
    PointerIsFoldOfLog(PREPARE);
    PreparedViews();
    assert forall g :: g in PREPARED.states ==> PREPARED.states[g].PROVEN?;
  }

  /** After the three publications. */
  const ALL_PUBLISHED := View(map["a" := "g2", "b" := "g3"], map["a" := 2, "b" := 1], {"1", "2", "3"},
                              map["g1" := PUBLISHED, "g2" := PUBLISHED, "g3" := PUBLISHED])

  const A1 := AttemptOp("1", Publish("a", "g1", 0, ""))

  const A2 := AttemptOp("2", Publish("a", "g2", 1, ""))

  const B1 := AttemptOp("3", Publish("b", "g3", 0, ""))

  const B2 := AttemptOp("4", Rollback("b", "g2", 1, "operator"))

  const A3 := AttemptOp("5", Rollback("a", "g1", 2, "operator"))

  lemma {:induction false} ThreePublished()
    ensures Stands(Run(EMPTY, PREPARE + [A1] + [A2] + [B1]), ALL_PUBLISHED)
  {
    hide Stands, Run, PREPARE;
    PreparedStands();
    PublishedRun(PREPARE, PREPARED, "1", "a", "g1", A1);
    var v1 := Published(PREPARED, "1", "a", "g1");
    PublishedRun(PREPARE + [A1], v1, "2", "a", "g2", A2);
    var v2 := Published(v1, "2", "a", "g2");
    assert v2 == View(map["a" := "g2"], map["a" := 2, "b" := 0], {"1", "2"},
                      map["g1" := PUBLISHED, "g2" := PUBLISHED, "g3" := PROVEN]);
    PublishedRun(PREPARE + [A1] + [A2], v2, "3", "b", "g3", B1);
    assert Published(v2, "3", "b", "g3") == ALL_PUBLISHED;
  }

  /**
  With two products the life cycle fails.  From the empty store: a publishes g1 and then
  g2, b publishes g3; b rolls back to g2, which a has active, and a rolls back from it to
  g1.  Every attempt succeeds, and b is left on a rolled-back generation.
  */
  lemma {:induction false} TwoProductsShareAGeneration()
    ensures var s := Run(EMPTY, PREPARE + [A1] + [A2] + [B1] + [B2] + [A3]);
      && "b" in s.pointer && s.pointer["b"].gen == "g2"
      && "g2" in s.generations && s.generations["g2"].state.ROLLED_BACK? && !ActivePublished(s)
      && s.attempts.Keys == {"1", "2", "3", "4", "5"}
  {
    hide Stands, Run, PREPARE, ActivePublished;
    ThreePublished();
    var ops := PREPARE + [A1] + [A2] + [B1];
    RolledRun(ops, ALL_PUBLISHED, "4", "b", "g2", B2);
    var v4 := RolledTo(ALL_PUBLISHED, "4", "b", "g2");
    RolledRun(ops + [B2], v4, "5", "a", "g1", A3);
    LeftBehind(Run(EMPTY, ops + [B2] + [A3]), RolledTo(v4, "5", "a", "g1"));
  }

  lemma {:induction false} LeftBehind(s: Store, v: View)
    requires Stands(s, v) && "b" in v.active && v.active["b"] == "g2" && "g2" in v.states && v.states["g2"].ROLLED_BACK?
    ensures "b" in s.pointer && s.pointer["b"].gen == "g2"
    ensures "g2" in s.generations && s.generations["g2"].state.ROLLED_BACK? && !ActivePublished(s)
    ensures s.attempts.Keys == v.attempts
  {
    hide Chains, Ledger;
  }
}
