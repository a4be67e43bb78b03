/**
What every run of the publication store keeps: clock and pointer are the fold of
the event log, pins are readings of it, attempts act once, and generations go
through their life cycle.
*/
module PublicationFacts {
  import opened Common
  import opened Publication

  /** The log of one product. */
  function Of(events: seq<Event>, product: string): seq<Event>
  {
    if events == [] then []
    else
      var last := events[|events| - 1];
      Of(events[..|events| - 1], product) + if last.product == product then [last] else []
  }

  /** The generation in force after a log, or `None` for the source. */
  function Active(log: seq<Event>): Option<string>
  {
    if log == [] then None else log[|log| - 1].toGen
  }

  /** Revisions 0, 1, 2, ... without a gap, each leaving the generation the previous one entered. */
  ghost predicate IsChain(log: seq<Event>)
  {
    forall i :: 0 <= i < |log| ==>
      log[i].from == i && log[i].to == i + 1 && log[i].fromGen == Active(log[..i])
  }

  ghost predicate PointerFits(s: Store, product: string, log: seq<Event>)
  {
    var p := PointerOf(s, product);
    && GenOf(p) == Active(log)
    && (p.Some? ==>
          && p.value.revision == |log|
          && p.value.attempt == log[|log| - 1].attempt
          && p.value.gen in s.generations
          && p.value.bound == s.generations[p.value.gen].bound)
  }

  /** Clock and pointer of the product are the fold of its log. */
  ghost predicate Folded(s: Store, product: string)
  {
    var log := Of(s.events, product);
    && IsChain(log)
    && PointerFits(s, product, log)
    && (if product in s.clock then
          s.clock[product].revision == |log| && (s.clock[product].route.SOURCE_FALLBACK? <==> Active(log) == None)
        else log == [])
  }

  ghost predicate Chains(s: Store)
  {
    forall product :: Folded(s, product)
  }

  /** Attempts and events correspond one to one. */
  ghost predicate Ledger(s: Store)
  {
    && (forall i :: 0 <= i < |s.events| ==>
          s.events[i].attempt in s.attempts && EventOf(s.attempts[s.events[i].attempt].1) == s.events[i])
    && (forall i, j :: 0 <= i < j < |s.events| ==> s.events[i].attempt != s.events[j].attempt)
    && (forall a :: a in s.attempts ==> s.attempts[a].1.attempt == a && EventOf(s.attempts[a].1) in s.events)
  }

  /** The pin repeats what the log says of its revision. */
  ghost predicate PinFits(s: Store, pin: Pin)
  {
    var log := Of(s.events, pin.product);
    && pin.revision <= |log|
    && pin.gen == Active(log[..pin.revision])
    && (pin.route.SOURCE_FALLBACK? <==> pin.gen.None?)
    && (pin.gen.None? ==> pin.bound.None? && pin.tableMap.None?)
    && (pin.gen.Some? ==>
          && pin.gen.value in s.generations
          && var g := s.generations[pin.gen.value];
          && pin.bound == Some((g.bound.proof, g.bound.tableMapDigest))
          && pin.tableMap == Some(g.tableMap))
  }

  ghost predicate Pins(s: Store)
  {
    forall id :: id in s.pins ==> PinFits(s, s.pins[id])
  }

  /** The event publishes the generation. */
  predicate Publishes(e: Event, gen: string)
  {
    e.action.PUBLISH? && e.toGen == Some(gen)
  }

  /** `ever_published` tells whether the log publishes the generation; a proven one it never does. */
  ghost predicate FlagsFit(s: Store)
  {
    forall gen :: gen in s.generations ==>
      && (s.generations[gen].everPublished <==> exists e :: e in s.events && Publishes(e, gen))
      && (s.generations[gen].state.PROVEN? ==> !s.generations[gen].everPublished)
  }

  ghost predicate PublishedKnown(s: Store)
  {
    forall e, gen :: e in s.events && Publishes(e, gen) ==> gen in s.generations
  }

  /** Each generation is published at most once. */
  ghost predicate PublishedOnce(s: Store)
  {
    forall i, j, gen :: 0 <= i < j < |s.events| && Publishes(s.events[i], gen) ==> !Publishes(s.events[j], gen)
  }

  /** Every rollback goes to a generation published before it. */
  ghost predicate RollbackTargets(events: seq<Event>)
  {
    forall j :: 0 <= j < |events| && events[j].action.ROLLBACK? ==>
      events[j].toGen.Some? && exists i :: 0 <= i < j && Publishes(events[i], events[j].toGen.value)
  }

  ghost predicate Lifecycle(s: Store)
  {
    FlagsFit(s) && PublishedKnown(s) && PublishedOnce(s) && RollbackTargets(s.events)
  }

  ghost predicate Inv(s: Store)
  {
    Chains(s) && Ledger(s) && Pins(s) && Lifecycle(s)
  }

  lemma {:induction false} OfAppend(events: seq<Event>, e: Event, product: string)
    ensures Of(events + [e], product) == Of(events, product) + if e.product == product then [e] else []
  {
    assert (events + [e])[..|events|] == events;
  }

  lemma {:induction false} OfIsIn(events: seq<Event>, product: string, e: Event)
    ensures e in Of(events, product) <==> e in events && e.product == product
  {
    if events != [] {
      var front, last := events[..|events| - 1], events[|events| - 1];
      assert events == front + [last];
      OfIsIn(front, product, e);
    }
  }

  /** Registered rows stay, and keep their bindings. */
  ghost predicate SameBindings(s: Store, s': Store)
  {
    forall gen :: gen in s.generations ==>
      gen in s'.generations && Immutable(s'.generations[gen]) == Immutable(s.generations[gen])
  }

  /** A new attempt has moved the product's pointer. */
  ghost predicate Move(s: Store, attempt: string, payload: Payload, r: Receipt, s': Store)
  {
    var product := payload.product;
    && attempt !in s.attempts
    && r.attempt == attempt && r.product == product
    && s'.events == s.events + [EventOf(r)]
    && s'.attempts == s.attempts[attempt := (payload, r)]
    && s'.pins == s.pins
    && product in s.clock && r.expected == payload.expected == s.clock[product].revision
    && r.resulting == r.expected + 1
    && r.prior == GenOf(PointerOf(s, product))
    && SameBindings(s, s')
    && match r.gen
       case None =>
         && s'.clock == s.clock[product := Clock(r.resulting, SOURCE_FALLBACK)]
         && s'.pointer == s.pointer - {product}
       case Some(gen) =>
         && gen in s.generations && r.bound == Some(s.generations[gen].bound)
         && s'.clock == s.clock[product := Clock(r.resulting, GENERATION)]
         && s'.pointer == s.pointer[product := Pointer(gen, r.resulting, attempt, s.generations[gen].bound)]
  }

  lemma {:induction false} PublishMoves(s: Store, attempt: string, payload: Payload)
    requires payload.Publish? && attempt !in s.attempts && PublishNew(s, attempt, payload).Ok?
    ensures var m := PublishNew(s, attempt, payload).value; Move(s, attempt, payload, m.receipt, m.store)
  {
  }

  lemma {:induction false} FallbackMoves(s: Store, attempt: string, payload: Payload)
    requires payload.Fallback? && attempt !in s.attempts && FallbackNew(s, attempt, payload).Ok?
    ensures var m := FallbackNew(s, attempt, payload).value; Move(s, attempt, payload, m.receipt, m.store)
  {
  }

  lemma {:induction false} RollbackMoves(s: Store, attempt: string, payload: Payload)
    requires payload.Rollback? && attempt !in s.attempts && RollbackNew(s, attempt, payload).Ok?
    ensures var m := RollbackNew(s, attempt, payload).value; Move(s, attempt, payload, m.receipt, m.store)
  {
  }

  lemma {:induction false} ActMoves(s: Store, attempt: string, payload: Payload)
    requires Act(s, attempt, payload).Ok? && attempt !in s.attempts
    ensures var m := Act(s, attempt, payload).value; Move(s, attempt, payload, m.receipt, m.store)
  {
    match payload
    case Publish(_, _, _, _) => PublishMoves(s, attempt, payload);
    case Fallback(_, _, _) => FallbackMoves(s, attempt, payload);
    case Rollback(_, _, _, _) => RollbackMoves(s, attempt, payload);
  }

  lemma {:induction false} ChainExtends(log: seq<Event>, e: Event)
    requires IsChain(log) && e.from == |log| && e.to == |log| + 1 && e.fromGen == Active(log)
    ensures IsChain(log + [e])
  {
    var log' := log + [e];
    forall i | 0 <= i < |log'|
      ensures log'[i].from == i && log'[i].to == i + 1 && log'[i].fromGen == Active(log'[..i])
    {
      assert log'[..i] == log[..i];
      assert log[..|log|] == log;
    }
  }

  lemma {:induction false} MovedFolds(s: Store, attempt: string, payload: Payload, r: Receipt, s': Store)
    requires Folded(s, payload.product) && Move(s, attempt, payload, r, s')
    ensures Folded(s', payload.product)
  {
    OfAppend(s.events, EventOf(r), payload.product);
    ChainExtends(Of(s.events, payload.product), EventOf(r));
  }

  lemma {:induction false} UnmovedFolds(s: Store, attempt: string, payload: Payload, r: Receipt, s': Store,
                                        product: string)
    requires Folded(s, product) && Move(s, attempt, payload, r, s') && product != payload.product
    ensures Folded(s', product)
  {
    OfAppend(s.events, EventOf(r), product);
    assert Of(s'.events, product) == Of(s.events, product);
    assert PointerOf(s', product) == PointerOf(s, product);
  }

  lemma {:induction false} MoveKeepsChains(s: Store, attempt: string, payload: Payload, r: Receipt, s': Store)
    requires Chains(s) && Move(s, attempt, payload, r, s')
    ensures Chains(s')
  {
    forall product ensures Folded(s', product) {
      assert Folded(s, product);
      if product == payload.product { MovedFolds(s, attempt, payload, r, s'); }
      else { UnmovedFolds(s, attempt, payload, r, s', product); }
    }
  }

  lemma {:induction false} MoveKeepsLedger(s: Store, attempt: string, payload: Payload, r: Receipt, s': Store)
    requires Ledger(s) && Move(s, attempt, payload, r, s')
    ensures Ledger(s')
  {
    assert s'.events[|s.events|] == EventOf(r);
    assert forall e :: e in s.events ==> e in s'.events;
  }

  lemma {:induction false} MoveKeepsPins(s: Store, attempt: string, payload: Payload, r: Receipt, s': Store)
    requires Pins(s) && Move(s, attempt, payload, r, s')
    ensures Pins(s')
  {
    forall id | id in s'.pins ensures PinFits(s', s'.pins[id]) {
      var pin := s.pins[id];
      assert PinFits(s, pin);
      OfAppend(s.events, EventOf(r), pin.product);
      assert Of(s'.events, pin.product)[..pin.revision] == Of(s.events, pin.product)[..pin.revision];
    }
  }

  /** How a new attempt changes the rows of the generations. */
  ghost predicate Rows(s: Store, payload: Payload, r: Receipt, s': Store)
  {
    match payload
    case Publish(_, gen, _, _) =>
      && r.action.PUBLISH? && r.gen == Some(gen)
      && gen in s.generations && s.generations[gen].state.PROVEN?
      && s'.generations == s.generations[gen := s.generations[gen].(state := PUBLISHED, everPublished := true)]
    case Fallback(_, _, _) =>
      r.action.FIRST_PUBLICATION_FALLBACK? && r.gen == None && s'.generations == s.generations
    case Rollback(_, gen, _, _) =>
      && r.action.ROLLBACK? && r.gen == Some(gen)
      && gen in s.generations && s.generations[gen].everPublished && !s.generations[gen].state.ROLLED_BACK?
      && r.prior.Some? && r.prior.value != gen
      && s'.generations == RolledBack(s.generations, r.prior.value)
  }

  lemma {:induction false} ActRows(s: Store, attempt: string, payload: Payload)
    requires Act(s, attempt, payload).Ok? && attempt !in s.attempts
    ensures var m := Act(s, attempt, payload).value; Rows(s, payload, m.receipt, m.store)
  {
  }

  lemma {:induction false} FlagsFitAfter(s: Store, payload: Payload, r: Receipt, s': Store)
    requires FlagsFit(s) && Rows(s, payload, r, s') && s'.events == s.events + [EventOf(r)]
    ensures FlagsFit(s')
  {
    var e := EventOf(r);
    forall gen | gen in s'.generations
      ensures s'.generations[gen].everPublished <==> exists f :: f in s'.events && Publishes(f, gen)
      ensures s'.generations[gen].state.PROVEN? ==> !s'.generations[gen].everPublished
    {
      assert gen in s.generations;
      assert (exists f :: f in s'.events && Publishes(f, gen)) <==>
        (exists f :: f in s.events && Publishes(f, gen)) || Publishes(e, gen) by {
        assert forall f :: f in s'.events <==> f in s.events || f == e;
      }
    }
  }

  lemma {:induction false} PublishedOnceAfter(s: Store, payload: Payload, r: Receipt, s': Store)
    requires FlagsFit(s) && PublishedOnce(s) && Rows(s, payload, r, s') && s'.events == s.events + [EventOf(r)]
    ensures PublishedOnce(s')
  {
    forall i, j, gen | 0 <= i < j < |s'.events| && Publishes(s'.events[i], gen) ensures !Publishes(s'.events[j], gen) {
      assert s'.events[i] == s.events[i] && s.events[i] in s.events;
      if j < |s.events| { assert s'.events[j] == s.events[j]; }
    }
  }

  lemma {:induction false} RollbackTargetsAfter(s: Store, payload: Payload, r: Receipt, s': Store)
    requires FlagsFit(s) && RollbackTargets(s.events) && Rows(s, payload, r, s') && s'.events == s.events + [EventOf(r)]
    ensures RollbackTargets(s'.events)
  {
    forall j | 0 <= j < |s'.events| && s'.events[j].action.ROLLBACK?
      ensures s'.events[j].toGen.Some? && exists i :: 0 <= i < j && Publishes(s'.events[i], s'.events[j].toGen.value)
    {
      if j < |s.events| {
        assert s'.events[j] == s.events[j];
        var i :| 0 <= i < j && Publishes(s.events[i], s.events[j].toGen.value);
        assert s'.events[i] == s.events[i];
      } else {
        var f :| f in s.events && Publishes(f, r.gen.value);
        var i :| 0 <= i < |s.events| && s.events[i] == f;
        assert s'.events[i] == f;
      }
    }
  }

  lemma {:induction false} MoveKeepsLifecycle(s: Store, payload: Payload, r: Receipt, s': Store)
    requires Lifecycle(s) && Rows(s, payload, r, s') && s'.events == s.events + [EventOf(r)]
    ensures Lifecycle(s')
  {
    FlagsFitAfter(s, payload, r, s');
    PublishedOnceAfter(s, payload, r, s');
    RollbackTargetsAfter(s, payload, r, s');
    forall e, gen | e in s'.events && Publishes(e, gen) ensures gen in s'.generations {
      assert e in s.events || e == EventOf(r);
    }
  }

  datatype Op =
    | InitializeOp(product: string)
    | RegisterOp(body: BindingBody, digest: Digest, contract: string)
    | AttemptOp(attempt: string, payload: Payload)
    | PinOp(product: string, pin: string)
    | EligibilityOp(gen: string, flags: map<string, bool>)

  /** The store after one operation; a failing one leaves it alone. */
  function Step(s: Store, op: Op): Store
  {
    match op
    case InitializeOp(product) => Initialize(s, product)
    case RegisterOp(body, digest, contract) =>
      (match Register(s, body, digest, contract) case Ok(s') => s' case Err(_) => s)
    case AttemptOp(attempt, payload) =>
      (match Act(s, attempt, payload) case Ok(m) => m.store case Err(_) => s)
    case PinOp(product, pin) =>
      (match PinAs(s, product, pin) case Ok(done) => done.0 case Err(_) => s)
    case EligibilityOp(gen, flags) =>
      (match SetEligibility(s, gen, flags) case Ok(s') => s' case Err(_) => s)
  }

  function Run(s: Store, ops: seq<Op>): Store
    decreases |ops|
  {
    if ops == [] then s else Run(Step(s, ops[0]), ops[1..])
  }

  /** Operations that only add or edit generation rows. */
  lemma {:induction false} RowsOnlyKeeps(s: Store, s': Store)
    requires Inv(s) && SameBindings(s, s')
    requires s' == s.(generations := s'.generations)
    requires forall gen :: gen in s'.generations && gen in s.generations ==>
      && s'.generations[gen].state == s.generations[gen].state
      && s'.generations[gen].everPublished == s.generations[gen].everPublished
    requires forall gen :: gen in s'.generations && gen !in s.generations ==>
      s'.generations[gen].state.PROVEN? && !s'.generations[gen].everPublished
    ensures Inv(s')
  {
    forall product ensures Folded(s', product) { assert Folded(s, product); FoldStays(s, s', product); }
    forall id | id in s'.pins ensures PinFits(s', s'.pins[id]) {
      assert PinFits(s, s.pins[id]);
      PinStays(s, s', s.pins[id]);
    }
    assert FlagsFit(s');
  }

  lemma {:induction false} NewPinFits(s: Store, product: string)
    requires Folded(s, product) && PinBody(s, product).Ok?
    ensures PinFits(s, PinBody(s, product).value)
  {
    var log := Of(s.events, product);
    assert log[..|log|] == log;
  }

  /** Pins that fit one store fit another with the same log and bindings. */
  lemma {:induction false} PinStays(s: Store, s': Store, pin: Pin)
    requires PinFits(s, pin) && s'.events == s.events && SameBindings(s, s')
    ensures PinFits(s', pin)
  {
  }

  lemma {:induction false} FoldStays(s: Store, s': Store, product: string)
    requires Folded(s, product) && s'.events == s.events && s'.pointer == s.pointer && SameBindings(s, s')
    requires product in s.clock ==> product in s'.clock && s'.clock[product] == s.clock[product]
    requires product in s'.clock && product !in s.clock ==> s'.clock[product] == Clock(0, SOURCE_FALLBACK)
    ensures Folded(s', product)
  {
  }

  lemma {:induction false} PinKeeps(s: Store, product: string, pin: string)
    requires Inv(s)
    ensures Inv(Step(s, PinOp(product, pin)))
  {
    hide Ledger, Lifecycle, PinBody, Folded, PinFits;
    var s' := Step(s, PinOp(product, pin));
    assert Folded(s, product);
    if s' != s { NewPinFits(s, product); }
    LedgerStays(s, s');
    forall p ensures Folded(s', p) { assert Folded(s, p); FoldStays(s, s', p); }
    forall id | id in s'.pins ensures PinFits(s', s'.pins[id]) {
      if id in s.pins { assert PinFits(s, s.pins[id]); }
      PinStays(s, s', s'.pins[id]);
    }
  }

  lemma {:induction false} InitializeFolds(s: Store, product: string, p: string)
    requires Folded(s, p)
    ensures Folded(Initialize(s, product), p)
  {
  }

  lemma {:induction false} LedgerStays(s: Store, s': Store)
    requires Ledger(s) && Lifecycle(s)
    requires s'.events == s.events && s'.attempts == s.attempts && s'.generations == s.generations
    ensures Ledger(s') && Lifecycle(s')
  {
  }

  lemma {:induction false} InitializeKeeps(s: Store, product: string)
    requires Inv(s)
    ensures Inv(Initialize(s, product))
  {
    hide Folded, PinFits, Ledger, Lifecycle;
    var s' := Initialize(s, product);
    LedgerStays(s, s');
    forall p ensures Folded(s', p) {
      assert Folded(s, p);
      InitializeFolds(s, product, p);
    }
    forall id | id in s'.pins ensures PinFits(s', s'.pins[id]) {
      assert PinFits(s, s.pins[id]);
      PinStays(s, s', s.pins[id]);
    }
  }

  lemma {:induction false} AttemptKeeps(s: Store, attempt: string, payload: Payload)
    requires Inv(s)
    ensures Inv(Step(s, AttemptOp(attempt, payload)))
  {
    if Act(s, attempt, payload).Ok? && attempt !in s.attempts {
      var m := Act(s, attempt, payload).value;
      ActMoves(s, attempt, payload);
      ActRows(s, attempt, payload);
      MoveKeepsChains(s, attempt, payload, m.receipt, m.store);
      MoveKeepsLedger(s, attempt, payload, m.receipt, m.store);
      MoveKeepsPins(s, attempt, payload, m.receipt, m.store);
      MoveKeepsLifecycle(s, payload, m.receipt, m.store);
    }
  }

  lemma {:induction false} RegisterKeeps(s: Store, body: BindingBody, digest: Digest, contract: string)
    requires Inv(s)
    ensures Inv(Step(s, RegisterOp(body, digest, contract)))
  {
    if Register(s, body, digest, contract).Ok? && body.gen !in s.generations {
      RowsOnlyKeeps(s, Register(s, body, digest, contract).value);
    }
  }

  lemma {:induction false} RowEdited(s: Store, gen: string, g: Generation)
    requires Inv(s) && gen in s.generations && Immutable(g) == Immutable(s.generations[gen])
    requires g.state == s.generations[gen].state && g.everPublished == s.generations[gen].everPublished
    ensures Inv(s.(generations := s.generations[gen := g]))
  {
    hide Chains, Ledger, Pins, Lifecycle, Immutable;
    RowsOnlyKeeps(s, s.(generations := s.generations[gen := g]));
  }

  lemma FlaggedSame(g: Generation, flags: map<string, bool>)
    ensures var g' := Flagged(g, flags);
      Immutable(g') == Immutable(g) && g'.state == g.state && g'.everPublished == g.everPublished
  {
    hide Set;
  }

  lemma {:induction false} EligibilityKeeps(s: Store, gen: string, flags: map<string, bool>)
    requires Inv(s)
    ensures Inv(Step(s, EligibilityOp(gen, flags)))
  {
    hide Inv, Flagged, Immutable;
    if SetEligibility(s, gen, flags).Ok? && gen in s.generations {
      FlaggedSame(s.generations[gen], flags);
      RowEdited(s, gen, Flagged(s.generations[gen], flags));
    }
  }

  lemma {:induction false} StepKeeps(s: Store, op: Op)
    requires Inv(s)
    ensures Inv(Step(s, op))
  {
    match op
    case InitializeOp(product) => InitializeKeeps(s, product);
    case RegisterOp(body, digest, contract) => RegisterKeeps(s, body, digest, contract);
    case AttemptOp(attempt, payload) => AttemptKeeps(s, attempt, payload);
    case PinOp(product, pin) => PinKeeps(s, product, pin);
    case EligibilityOp(gen, flags) => EligibilityKeeps(s, gen, flags);
  }

  lemma {:induction false} RunKeeps(s: Store, ops: seq<Op>)
    requires Inv(s)
    ensures Inv(Run(s, ops))
    decreases |ops|
  {
    if ops != [] {
      StepKeeps(s, ops[0]);
      RunKeeps(Step(s, ops[0]), ops[1..]);
    }
  }

  /** In every run from an empty store, clock and pointer are the fold of the log. */
  lemma {:induction false} PointerIsFoldOfLog(ops: seq<Op>)
    ensures Inv(Run(EMPTY, ops))
  {
    assert Inv(EMPTY) by {
      forall product ensures Folded(EMPTY, product) { assert Of([], product) == []; }
    }
    RunKeeps(EMPTY, ops);
  }

  /** Failures that would mean a broken store cannot happen. */
  predicate Broken(code: Code)
  {
    code in {CB27C002_POINTER_CLOCK_INCONSISTENT, CB27F002_POINTER_OUTCOME_UNRESOLVED,
             CB27P010_ATTEMPT_CLOCK_DIVERGENCE, INTEGRITY_ERROR}
  }

  lemma {:induction false} CurrentIsSound(s: Store, product: string)
    requires Chains(s)
    ensures CurrentOf(s, product) == if product in s.clock
      then Ok(Current(s.clock[product].revision, s.clock[product].route, PointerOf(s, product)))
      else Err(CB27C001_PRODUCT_UNKNOWN)
    ensures product in s.pointer ==> s.pointer[product].revision == |Of(s.events, product)|
  {
    assert Folded(s, product);
  }

  /** The outcome of an attempt can always be read back. */
  lemma {:induction false} ReconcileIsSound(s: Store, attempt: string)
    requires Chains(s) && Ledger(s)
    ensures Reconcile(s, attempt) ==
      if attempt in s.attempts then Ok(s.attempts[attempt].1) else Err(CB27P009_ATTEMPT_OUTCOME_UNKNOWN)
  {
    if attempt in s.attempts {
      var r := s.attempts[attempt].1;
      OfIsIn(s.events, r.product, EventOf(r));
      assert Folded(s, r.product);
      var log := Of(s.events, r.product);
      var i :| 0 <= i < |log| && log[i] == EventOf(r);
      assert log[i].to == i + 1;
      CurrentIsSound(s, r.product);
    }
  }

  lemma PublishIsSound(s: Store, attempt: string, payload: Payload)
    requires payload.Publish? && forall e :: e in s.events ==> e.attempt != attempt
    requires CurrentOf(s, payload.product).Err? ==> !Broken(CurrentOf(s, payload.product).code)
    ensures var r := PublishNew(s, attempt, payload); r.Err? ==> !Broken(r.code)
  {
    hide CurrentOf;
  }

  lemma FallbackIsSound(s: Store, attempt: string, payload: Payload)
    requires payload.Fallback? && forall e :: e in s.events ==> e.attempt != attempt
    requires CurrentOf(s, payload.product).Err? ==> !Broken(CurrentOf(s, payload.product).code)
    requires CurrentOf(s, payload.product).Ok? ==>
               var c := CurrentOf(s, payload.product).value; c.pointer.Some? ==> c.pointer.value.revision == c.revision
    ensures var r := FallbackNew(s, attempt, payload); r.Err? ==> !Broken(r.code)
  {
    hide CurrentOf;
  }

  lemma RollbackIsSound(s: Store, attempt: string, payload: Payload)
    requires payload.Rollback? && forall e :: e in s.events ==> e.attempt != attempt
    requires CurrentOf(s, payload.product).Err? ==> !Broken(CurrentOf(s, payload.product).code)
    ensures var r := RollbackNew(s, attempt, payload); r.Err? ==> !Broken(r.code)
  {
    hide CurrentOf;
  }

  lemma PointerMeetsClock(s: Store, product: string)
    requires Chains(s)
    ensures match CurrentOf(s, product)
            case Err(code) => !Broken(code)
            case Ok(c) => c.pointer.Some? ==> c.pointer.value.revision == c.revision
  {
    CurrentIsSound(s, product);
    assert Folded(s, product);
  }

  lemma {:induction false} ActIsSound(s: Store, attempt: string, payload: Payload)
    requires Chains(s) && Ledger(s)
    ensures var r := Act(s, attempt, payload); r.Err? ==> !Broken(r.code)
  {
    hide PublishNew, FallbackNew, RollbackNew, CurrentOf, Chains;
    PointerMeetsClock(s, payload.product);
    if attempt !in s.attempts {
      forall e | e in s.events ensures e.attempt != attempt {}
      match payload
      case Publish(_, _, _, _) => PublishIsSound(s, attempt, payload);
      case Fallback(_, _, _) => FallbackIsSound(s, attempt, payload);
      case Rollback(_, _, _, _) => RollbackIsSound(s, attempt, payload);
    }
  }

  lemma {:induction false} PinIsSound(s: Store, product: string, pin: string)
    requires Chains(s)
    ensures var r := PinAs(s, product, pin); r.Err? ==>
      r.code == CB27C003_PIN_CONFLICT || (r.code == CB27C001_PRODUCT_UNKNOWN && product !in s.clock)
  {
    CurrentIsSound(s, product);
    assert Folded(s, product);
  }

  /** In every run, no operation ever meets a broken store. */
  lemma {:induction false} NeverBroken(ops: seq<Op>, attempt: string, payload: Payload, product: string, pin: string)
    ensures var s := Run(EMPTY, ops);
      && (Act(s, attempt, payload).Err? ==> !Broken(Act(s, attempt, payload).code))
      && (Reconcile(s, attempt).Err? <==> attempt !in s.attempts)
      && (PinAs(s, product, pin).Err? ==> !Broken(PinAs(s, product, pin).code))
  {
    PointerIsFoldOfLog(ops);
    var s := Run(EMPTY, ops);
    ActIsSound(s, attempt, payload);
    ReconcileIsSound(s, attempt);
    PinIsSound(s, product, pin);
  }

  /** Nothing that a run does removes or rewrites an attempt. */
  lemma {:induction false} AttemptsStay(s: Store, ops: seq<Op>, attempt: string)
    requires attempt in s.attempts
    ensures attempt in Run(s, ops).attempts && Run(s, ops).attempts[attempt] == s.attempts[attempt]
    decreases |ops|
  {
    if ops != [] {
      if ops[0].AttemptOp? && Act(s, ops[0].attempt, ops[0].payload).Ok? && ops[0].attempt !in s.attempts {
        ActMoves(s, ops[0].attempt, ops[0].payload);
      }
      AttemptsStay(Step(s, ops[0]), ops[1..], attempt);
    }
  }

  /**
  An attempt repeated after any later operations returns its original receipt and
  changes nothing.
  */
  lemma {:induction false} ReplayReturnsReceipt(s: Store, attempt: string, payload: Payload, ops: seq<Op>)
    requires Act(s, attempt, payload).Ok?
    ensures var m := Act(s, attempt, payload).value;
      Act(Run(m.store, ops), attempt, payload) == Ok(Moved(Run(m.store, ops), m.receipt))
  {
    var m := Act(s, attempt, payload).value;
    if attempt !in s.attempts { ActMoves(s, attempt, payload); }
    AttemptsStay(m.store, ops, attempt);
  }

  /** Each revision of a product comes from exactly one attempt, which moved nothing else. */
  lemma {:induction false} OneAttemptPerRevision(ops: seq<Op>, product: string, revision: nat)
    requires var s := Run(EMPTY, ops); product in s.clock && 1 <= revision <= s.clock[product].revision
    ensures var s := Run(EMPTY, ops);
      exists a :: a in s.attempts && s.attempts[a].1.product == product && s.attempts[a].1.resulting == revision
        && forall b ::
             b in s.attempts && s.attempts[b].1.product == product && s.attempts[b].1.resulting == revision ==> b == a
  {
    hide Active, Lifecycle, Pins, PointerFits, Run;
    var s := Run(EMPTY, ops);
    PointerIsFoldOfLog(ops);
    assert Folded(s, product);
    var log := Of(s.events, product);
    var e := log[revision - 1];
    OfIsIn(s.events, product, e);
    var i :| 0 <= i < |s.events| && s.events[i] == e;
    forall b | b in s.attempts && s.attempts[b].1.product == product && s.attempts[b].1.resulting == revision
      ensures b == e.attempt
    {
      var f := EventOf(s.attempts[b].1);
      OfIsIn(s.events, product, f);
      var j :| 0 <= j < |log| && log[j] == f;
    }
  }
}
