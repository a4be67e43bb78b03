/**
What the publication store answers: a receipt says what its request asked for, a known
attempt id answers only the request that first succeeded under it, and every refusal has
its condition.
*/
module PublicationAnswers {
  import opened Common
  import opened Publication
  import opened PublicationFacts
  import opened PublicationLifecycle

  /** The receipt is of this request: its product, revision, action and target. */
  predicate Answers(payload: Payload, r: Receipt)
  {
    && r.product == payload.product && r.expected == payload.expected && r.resulting == payload.expected + 1
    && match payload
       case Publish(_, gen, _, _) => r.action == PUBLISH && r.gen == Some(gen)
       case Fallback(_, _, _) => r.action == FIRST_PUBLICATION_FALLBACK && r.gen == None
       case Rollback(_, gen, _, _) => r.action == ROLLBACK && r.gen == Some(gen)
  }

  /** Only a publication may go without an authorization. */
  predicate Authorized(payload: Payload) { payload.Publish? || payload.authorization != "" }

  /** Stored receipts answer their stored, authorized requests. */
  ghost predicate AllAnswer(s: Store)
  {
    forall a :: a in s.attempts ==>
      Answers(s.attempts[a].0, s.attempts[a].1) && s.attempts[a].1.attempt == a && Authorized(s.attempts[a].0)
  }

  lemma NewReceiptAnswers(s: Store, attempt: string, payload: Payload)
    requires attempt !in s.attempts && Act(s, attempt, payload).Ok?
    ensures var m := Act(s, attempt, payload).value;
      Answers(payload, m.receipt) && m.receipt.attempt == attempt && Authorized(payload)
  {
    hide Eligible;
    ActMoves(s, attempt, payload);
    ActRows(s, attempt, payload);
  }

  lemma {:induction false} StepAnswers(s: Store, op: Op)
    requires AllAnswer(s)
    ensures AllAnswer(Step(s, op))
  {
    hide PublishNew, FallbackNew, RollbackNew, PinBody, Eligible, Answers, Authorized;
    if op.AttemptOp? && op.attempt !in s.attempts && Act(s, op.attempt, op.payload).Ok? {
      NewReceiptAnswers(s, op.attempt, op.payload);
      ActMoves(s, op.attempt, op.payload);
    }
  }

  lemma {:induction false} RunAnswers(s: Store, ops: seq<Op>)
    requires AllAnswer(s)
    ensures AllAnswer(Run(s, ops))
    decreases |ops|
  {
    hide AllAnswer, Step;
    if ops != [] {
      StepAnswers(s, ops[0]);
      RunAnswers(Step(s, ops[0]), ops[1..]);
    }
  }

  /** In every run, an attempt that succeeds gets a receipt of its own request. */
  lemma {:induction false} ReceiptAnswersRequest(ops: seq<Op>, attempt: string, payload: Payload)
    requires Act(Run(EMPTY, ops), attempt, payload).Ok?
    ensures var m := Act(Run(EMPTY, ops), attempt, payload).value;
      && Answers(payload, m.receipt) && m.receipt.attempt == attempt
      && attempt in m.store.attempts && m.store.attempts[attempt] == (payload, m.receipt)
  {
    hide PublishNew, FallbackNew, RollbackNew, Run, Answers;
    var s := Run(EMPTY, ops);
    RunAnswers(EMPTY, ops);
    if attempt !in s.attempts {
      NewReceiptAnswers(s, attempt, payload);
      ActMoves(s, attempt, payload);
    }
  }

  /** The request that first succeeded under an attempt id. */
  function FirstUse(s: Store, ops: seq<Op>, attempt: string): Option<Payload>
    decreases |ops|
  {
    if ops == [] then None
    else if ops[0].AttemptOp? && ops[0].attempt == attempt && Act(s, attempt, ops[0].payload).Ok?
    then Some(ops[0].payload)
    else FirstUse(Step(s, ops[0]), ops[1..], attempt)
  }

  lemma {:induction false} OtherStepsAreSilent(s: Store, op: Op, attempt: string)
    requires attempt !in s.attempts && !(op.AttemptOp? && op.attempt == attempt && Act(s, attempt, op.payload).Ok?)
    ensures attempt !in Step(s, op).attempts
  {
    hide PublishNew, FallbackNew, RollbackNew, PinBody;
    if op.AttemptOp? && op.attempt !in s.attempts && Act(s, op.attempt, op.payload).Ok? {
      ActMoves(s, op.attempt, op.payload);
    }
  }

  lemma {:induction false} FirstUseIsStored(s: Store, ops: seq<Op>, attempt: string)
    requires attempt !in s.attempts
    ensures attempt in Run(s, ops).attempts <==> FirstUse(s, ops, attempt).Some?
    ensures attempt in Run(s, ops).attempts ==> Run(s, ops).attempts[attempt].0 == FirstUse(s, ops, attempt).value
    decreases |ops|
  {
    hide Act, Move;
    if ops != [] {
      var op := ops[0];
      if op.AttemptOp? && op.attempt == attempt && Act(s, attempt, op.payload).Ok? {
        ActStores(s, attempt, op.payload);
        AttemptsStay(Step(s, op), ops[1..], attempt);
      } else {
        OtherStepsAreSilent(s, op, attempt);
        FirstUseIsStored(Step(s, op), ops[1..], attempt);
      }
    }
  }

  lemma ActStores(s: Store, attempt: string, payload: Payload)
    requires attempt !in s.attempts && Act(s, attempt, payload).Ok?
    ensures var s' := Act(s, attempt, payload).value.store; attempt in s'.attempts && s'.attempts[attempt].0 == payload
  {
    hide Act;
    ActMoves(s, attempt, payload);
  }

  /** The refusal of a request without its authorization. */
  function Unauthorized(payload: Payload): Code
  {
    if payload.Fallback? then CB27F001_AUTHORIZATION_REQUIRED else CB27R001_AUTHORIZATION_REQUIRED
  }

  /**
  A known attempt id.  In every run it answers exactly the request that first succeeded
  under it, with that request's receipt; any other request under the id is refused; and
  either way nothing changes.
  */
  lemma {:induction false} KnownAttempt(ops: seq<Op>, attempt: string, payload: Payload)
    requires FirstUse(EMPTY, ops, attempt).Some?
    ensures var s, first := Run(EMPTY, ops), FirstUse(EMPTY, ops, attempt).value;
      var r := Act(s, attempt, payload);
      && (r.Ok? <==> payload == first)
      && (r.Ok? ==> r.value.store == s)
      && (r.Err? ==> r.code == if Authorized(payload) then CB27P005_ATTEMPT_REPLAY_CONFLICT else Unauthorized(payload))
      && Step(s, AttemptOp(attempt, payload)) == s
  {
    hide PublishNew, FallbackNew, RollbackNew, Run, FirstUse;
    FirstUseIsStored(EMPTY, ops, attempt);
    RunAnswers(EMPTY, ops);
  }

  /** What a caller can check before a publication. */
  predicate MayPublish(s: Store, payload: Payload)
    requires payload.Publish?
  {
    && payload.product in s.clock && payload.expected == s.clock[payload.product].revision
    && payload.gen in s.generations && s.generations[payload.gen].state.PROVEN? && Usable(s.generations[payload.gen])
  }

  /** What a caller can check before a fallback. */
  predicate MayFallBack(s: Store, payload: Payload)
    requires payload.Fallback?
  {
    && payload.authorization != "" && payload.product in s.clock && payload.product in s.pointer
    && payload.expected == s.clock[payload.product].revision
  }

  lemma {:induction false} PublishIff(s: Store, attempt: string, payload: Payload)
    requires Chains(s) && Ledger(s) && payload.Publish? && attempt !in s.attempts
    ensures Act(s, attempt, payload).Ok? <==> MayPublish(s, payload)
    ensures Act(s, attempt, payload).Err? ==> Act(s, attempt, payload).code == Refusal(s, payload)
  {
    hide Chains, Ledger;
    CurrentIsSound(s, payload.product);
    ActIsSound(s, attempt, payload);
  }

  lemma {:induction false} FallbackIff(s: Store, attempt: string, payload: Payload)
    requires Chains(s) && Ledger(s) && payload.Fallback? && attempt !in s.attempts
    ensures Act(s, attempt, payload).Ok? <==> MayFallBack(s, payload)
    ensures Act(s, attempt, payload).Err? ==> Act(s, attempt, payload).code == Refusal(s, payload)
  {
    hide Chains, Ledger;
    CurrentIsSound(s, payload.product);
    ActIsSound(s, attempt, payload);
  }

  /** Which refusal a new request that is not granted gets. */
  function Refusal(s: Store, payload: Payload): Code
  {
    if !Authorized(payload) then Unauthorized(payload)
    else if payload.product !in s.clock then CB27C001_PRODUCT_UNKNOWN
    else if payload.expected != s.clock[payload.product].revision
            || (!payload.Publish? && payload.product !in s.pointer)
    then CB27P007_STALE_REVISION
    else if payload.Fallback? then INTEGRITY_ERROR
    else if payload.Rollback? && payload.gen == s.pointer[payload.product].gen then CB27R002_TARGET_ALREADY_ACTIVE
    else if payload.gen !in s.generations then CB27P004_GENERATION_UNKNOWN
    else CB27P006_GENERATION_INELIGIBLE
  }

  lemma {:induction false} RollbackRefused(s: Store, attempt: string, payload: Payload)
    requires Chains(s) && Ledger(s) && payload.Rollback? && attempt !in s.attempts
    ensures Act(s, attempt, payload).Err? ==> Act(s, attempt, payload).code == Refusal(s, payload)
  {
    hide Chains, Ledger;
    CurrentIsSound(s, payload.product);
    ActIsSound(s, attempt, payload);
  }

  /** Is the request granted? */
  predicate Allowed(s: Store, payload: Payload)
  {
    match payload
    case Publish(_, _, _, _) => MayPublish(s, payload)
    case Fallback(_, _, _) => MayFallBack(s, payload)
    case Rollback(_, _, _, _) => Granted(s, payload)
  }

  /**
  A new attempt.  In every run it succeeds exactly when its request is granted, by
  conditions a caller can read; else it is refused for the first condition that fails.
  */
  lemma {:induction false} NewAttempt(ops: seq<Op>, attempt: string, payload: Payload)
    requires FirstUse(EMPTY, ops, attempt) == None
    ensures var s := Run(EMPTY, ops);
      && (Act(s, attempt, payload).Ok? <==> Allowed(s, payload))
      && (Act(s, attempt, payload).Err? ==> Act(s, attempt, payload).code == Refusal(s, payload))
  {
    hide Act, Run, FirstUse, MayPublish, MayFallBack, Granted, Refusal, Pins, Lifecycle, StatesFit;
    var s := Run(EMPTY, ops);
    FirstUseIsStored(EMPTY, ops, attempt);
    StatesOfRun(ops);
    match payload
    case Publish(_, _, _, _) => PublishIff(s, attempt, payload);
    case Fallback(_, _, _) => FallbackIff(s, attempt, payload);
    case Rollback(_, _, _, _) =>
      RollbackIff(s, attempt, payload);
      RollbackRefused(s, attempt, payload);
  }

  /** The pin repeats the product's current route, generation and binding. */
  ghost predicate PinsCurrent(s: Store, product: string, pin: Pin)
    requires product in s.clock
  {
    && pin.product == product && pin.revision == s.clock[product].revision && pin.route == s.clock[product].route
    && (product !in s.pointer ==> pin.gen == None && pin.bound == None && pin.tableMap == None)
    && (product in s.pointer ==>
          && s.pointer[product].gen in s.generations
          && var g := s.generations[s.pointer[product].gen];
             pin.gen == Some(s.pointer[product].gen) && pin.tableMap == Some(g.tableMap)
             && pin.bound == Some((g.bound.proof, g.bound.tableMapDigest)))
  }

  lemma {:induction false} PinBodyIsCurrent(s: Store, product: string)
    requires Chains(s)
    ensures PinBody(s, product).Ok? <==> product in s.clock
    ensures product in s.clock ==> PinsCurrent(s, product, PinBody(s, product).value)
    ensures product !in s.clock ==> PinBody(s, product) == Err(CB27C001_PRODUCT_UNKNOWN)
  {
    assert Folded(s, product);
  }

  /** Stored pins that stand at the current revision repeat the current binding. */
  lemma {:induction false} PinAtCurrent(s: Store, product: string, pin: Pin)
    requires Chains(s) && PinFits(s, pin) && pin.product == product && product in s.clock
    requires pin.revision == s.clock[product].revision
    ensures PinBody(s, product) == Ok(pin)
  {
    assert Folded(s, product);
    var log := Of(s.events, product);
    assert log[..|log|] == log;
    PinBodyIsCurrent(s, product);
  }

  /**
  Pinning.  In every run: a pin name that is new, or that was given to this product at
  its current revision, answers the current binding; a name given to another product or
  at another revision is refused, and keeps what it was given.
  */
  lemma {:induction false} PinIff(ops: seq<Op>, product: string, pin: string)
    ensures var s := Run(EMPTY, ops);
      var fits := pin in s.pins ==> product in s.clock && s.pins[pin].product == product
                                    && s.pins[pin].revision == s.clock[product].revision;
      var r := PinAs(s, product, pin);
      && (r.Ok? <==> product in s.clock && fits)
      && (r.Ok? ==> r.value.0 == s.(pins := s.pins[pin := r.value.1]) && PinsCurrent(s, product, r.value.1))
      && (r.Err? ==> r.code == if product in s.clock then CB27C003_PIN_CONFLICT else CB27C001_PRODUCT_UNKNOWN)
  {
    hide Run, PinBody, Chains, Ledger, Lifecycle, PinFits;
    var s := Run(EMPTY, ops);
    PointerIsFoldOfLog(ops);
    PinBodyIsCurrent(s, product);
    if pin in s.pins && product in s.clock && s.pins[pin].product == product
      && s.pins[pin].revision == s.clock[product].revision
    {
      PinAtCurrent(s, product, s.pins[pin]);
      assert s.pins[pin := s.pins[pin]] == s.pins;
    }
  }

  /** A pin, once given, never changes. */
  lemma {:induction false} PinStays(s: Store, ops: seq<Op>, pin: string)
    requires pin in s.pins
    ensures pin in Run(s, ops).pins && Run(s, ops).pins[pin] == s.pins[pin]
    decreases |ops|
  {
    hide Act, PinBody;
    if ops != [] {
      if ops[0].AttemptOp? && Act(s, ops[0].attempt, ops[0].payload).Ok? {
        ActKeepsPins(s, ops[0].attempt, ops[0].payload);
      }
      PinStays(Step(s, ops[0]), ops[1..], pin);
    }
  }

  lemma ActKeepsPins(s: Store, attempt: string, payload: Payload)
    requires Act(s, attempt, payload).Ok?
    ensures Act(s, attempt, payload).value.store.pins == s.pins
  {
    hide PublishNew, FallbackNew, RollbackNew;
    if attempt !in s.attempts { ActMoves(s, attempt, payload); }
  }

  /** What a registration fixes of a generation. */
  predicate RegisteredAs(g: Generation, body: BindingBody, contract: string)
  {
    && g.frontier == body.frontier && g.schemaSet == body.schemaSet && g.contract == contract
    && g.tableMap == body.tableMap && g.bound.proof == body.proof && g.bound.tableMapDigest == body.tableMapDigest
    && g.bound.binding == OfBody(body)
  }

  /**
  Registration.  It succeeds exactly when the digest is the body's and a generation of
  this name, if there is one, was registered with just this body and contract; a new
  generation is proven, usable and unpublished, a known one stays as it is.
  */
  lemma {:induction false} RegisterIff(s: Store, body: BindingBody, digest: Digest, contract: string)
    ensures var r := Register(s, body, digest, contract);
      && (r.Ok? <==> digest == OfBody(body)
                     && (body.gen in s.generations ==> RegisteredAs(s.generations[body.gen], body, contract)))
      && (r.Err? ==> r.code == if digest != OfBody(body) then CB27B005_BINDING_DIGEST
                               else CB27B006_GENERATION_BINDING_CONFLICT)
      && (r.Ok? && body.gen in s.generations ==> r.value == s)
      && (r.Ok? && body.gen !in s.generations ==>
            && r.value == s.(generations := r.value.generations)
            && r.value.generations.Keys == s.generations.Keys + {body.gen}
            && (forall g :: g in s.generations ==> r.value.generations[g] == s.generations[g])
            && var g := r.value.generations[body.gen];
               RegisteredAs(g, body, contract) && g.state.PROVEN? && Usable(g) && !g.everPublished)
  {
  }

  /** The flag is the given one, or what it was. */
  predicate FlagIs(now: bool, before: bool, flags: map<string, bool>, name: string)
  {
    if name in flags then now == flags[name] else now == before
  }

  /** Only the four flags of a generation changed, and only where they were given. */
  predicate Reflagged(g: Generation, g': Generation, flags: map<string, bool>)
  {
    && FlagIs(g'.retained, g.retained, flags, "retained") && FlagIs(g'.readable, g.readable, flags, "readable")
    && FlagIs(g'.retired, g.retired, flags, "retired")
    && FlagIs(g'.evidenceValid, g.evidenceValid, flags, "evidence_valid")
    && g'.(retained := g.retained, readable := g.readable, retired := g.retired, evidenceValid := g.evidenceValid) == g
  }

  /** Eligibility is changed exactly by some flags, all of them known, and only in the generation named. */
  lemma EligibilityIff(s: Store, gen: string, flags: map<string, bool>)
    ensures var r := SetEligibility(s, gen, flags);
      && (r.Ok? <==> (exists name :: name in flags) && forall name :: name in flags ==>
            name == "retained" || name == "readable" || name == "retired" || name == "evidence_valid")
      && (r.Err? ==> r.code == UNSUPPORTED_FLAG)
      && (r.Ok? ==> r.value == s.(generations := r.value.generations)
                    && r.value.generations.Keys == s.generations.Keys
                    && (forall g :: g in s.generations && g != gen ==> r.value.generations[g] == s.generations[g])
                    && (gen in s.generations ==> Reflagged(s.generations[gen], r.value.generations[gen], flags)))
  {
    assert flags.Keys <= FLAGS <==> forall name :: name in flags ==> name in FLAGS;
    assert flags == map[] <==> !exists name :: name in flags;
  }

  /** The clock's route and the pointer do not belong together. */
  predicate Inconsistent(s: Store, product: string)
  {
    product in s.clock && (s.clock[product].route == SOURCE_FALLBACK <==> product in s.pointer)
  }

  /** The current state of any store, reached or not: it is read exactly where clock and pointer agree. */
  lemma CurrentIff(s: Store, product: string)
    ensures var r := CurrentOf(s, product);
      && (r.Ok? <==> product in s.clock && !Inconsistent(s, product))
      && (r.Ok? ==> r.value.revision == s.clock[product].revision && r.value.route == s.clock[product].route
                    && r.value.pointer == if product in s.pointer then Some(s.pointer[product]) else None)
      && (r.Err? ==> r.code == if product in s.clock then CB27C002_POINTER_CLOCK_INCONSISTENT
                               else CB27C001_PRODUCT_UNKNOWN)
  {
  }

  /** Reading an attempt back, in any store: it needs the attempt and a clock that has come so far. */
  lemma ReconcileIff(s: Store, attempt: string)
    ensures var r := Reconcile(s, attempt);
      && (attempt !in s.attempts ==> r == Err(CB27P009_ATTEMPT_OUTCOME_UNKNOWN))
      && (attempt in s.attempts ==>
            var found := s.attempts[attempt].1;
            && (r.Ok? <==> found.product in s.clock && !Inconsistent(s, found.product)
                           && found.resulting <= s.clock[found.product].revision)
            && (r.Ok? ==> r.value == found)
            && (r.Err? && found.product in s.clock && !Inconsistent(s, found.product) ==>
                  r.code == CB27P010_ATTEMPT_CLOCK_DIVERGENCE))
  {
    hide CurrentOf, Inconsistent;
    if attempt in s.attempts { CurrentIff(s, s.attempts[attempt].1.product); }
  }
}
