/**
What verification by a consumer answers, and how a run ends by it.
*/
module OrchestrationAnswers {
  import opened Common
  import opened Publication
  import opened PublicationFacts
  import opened PublicationAnswers
  import opened Orchestration
  import PublicationLifecycle

  /** The reader sees the bound snapshot with the bound number of rows. */
  predicate Matches(read: Reader, table: string, binding: TableBinding)
  {
    match read(table, binding)
    case None => false
    case Some(seen) => seen.snapshot == binding.snapshot && seen.rows == binding.rows
  }

  /** Both tables of a map, and no others, are bound and match. */
  ghost predicate AllMatch(tables: TableMap, read: Reader)
  {
    && (forall table :: table in tables <==> table == "orders" || table == "order_items")
    && forall table :: table in tables ==> Matches(read, table, tables[table])
  }

  /** What the reader says of each bound table. */
  ghost predicate Lists(observed: map<string, Observation>, tables: TableMap, read: Reader)
  {
    && observed.Keys == tables.Keys
    && forall table :: table in tables ==> read(table, tables[table]) == Some(observed[table])
  }

  lemma BothRead(tables: TableMap, read: Reader)
    requires tables.Keys == {"order_items", "orders"}
    ensures ReadTables(tables, TABLES, read).Good? <==>
              Matches(read, "order_items", tables["order_items"]) && Matches(read, "orders", tables["orders"])
    ensures ReadTables(tables, TABLES, read).Good? ==> Lists(ReadTables(tables, TABLES, read).value, tables, read)
    ensures ReadTables(tables, TABLES, read).Bad? ==>
              ReadTables(tables, TABLES, read).fault ==
                if Matches(read, "order_items", tables["order_items"]) then FaultOf(read, "orders", tables["orders"])
                else FaultOf(read, "order_items", tables["order_items"])
  {
    assert TABLES[..1] == ["order_items"] && ["order_items"][..0] == [];
    assert ReadTables(tables, [], read) == Good(map[]);
    assert ReadTables(tables, ["order_items"], read) ==
      match ReadTable(tables, "order_items", read)
      case Bad(fault) => Bad(fault)
      case Good(o) => Good(map["order_items" := o]);
  }

  /** Why a table does not match. */
  function FaultOf(read: Reader, table: string, binding: TableBinding): Fault
  {
    match read(table, binding)
    case None => READ_FAILED
    case Some(seen) =>
      if seen.snapshot != binding.snapshot then CB27C005_SNAPSHOT_MISMATCH else CB27C006_ROW_COUNT_MISMATCH
  }

  /** Both tables are bound, and no others. */
  ghost predicate BothBound(tables: TableMap)
  {
    forall table :: table in tables <==> table == "orders" || table == "order_items"
  }

  /** Why a pin is not verified: its map is not of the two tables, or the first table that does not match. */
  ghost function PinFault(pin: Pin, read: Reader): Fault
  {
    if pin.tableMap.None? || !BothBound(pin.tableMap.value) then CB27C004_TABLE_MAP_INCOMPLETE
    else if Matches(read, "order_items", pin.tableMap.value["order_items"])
    then FaultOf(read, "orders", pin.tableMap.value["orders"])
    else FaultOf(read, "order_items", pin.tableMap.value["order_items"])
  }

  /**
  A pin is verified exactly when it is of the source, or binds both tables, and no
  others, and the reader sees each with the bound snapshot and row count; the result
  lists what was read.
  */
  lemma PinVerifiedIff(pin: Pin, read: Reader)
    ensures VerifyPin(pin, read).Good? <==>
              pin.route.SOURCE_FALLBACK? || (pin.tableMap.Some? && AllMatch(pin.tableMap.value, read))
    ensures VerifyPin(pin, read).Good? ==>
              var v := VerifyPin(pin, read).value;
              v.pin == pin && if pin.route.SOURCE_FALLBACK? then v.observed == map[]
                              else Lists(v.observed, pin.tableMap.value, read)
    ensures VerifyPin(pin, read).Bad? ==> VerifyPin(pin, read).fault == PinFault(pin, read)
  {
    hide ReadTables, Matches;
    if pin.route.GENERATION? && pin.tableMap.Some? {
      var tables := pin.tableMap.value;
      assert BothBound(tables) <==> tables.Keys == {"order_items", "orders"} by {
        if BothBound(tables) { forall t ensures t in tables.Keys <==> t in {"order_items", "orders"} {} }
      }
      if tables.Keys == {"order_items", "orders"} { BothRead(tables, read); }
    }
  }

  /** The product's current binding would be verified: it is the source, or what the reader sees. */
  ghost predicate CurrentMatches(s: Store, product: string, read: Reader)
  {
    && product in s.clock
    && (product in s.pointer ==>
          s.pointer[product].gen in s.generations && AllMatch(s.generations[s.pointer[product].gen].tableMap, read))
  }

  /** The pin name is new, or was given at the product's current revision. */
  ghost predicate PinFitsNow(s: Store, product: string, pin: string)
  {
    pin in s.pins ==>
      product in s.clock && s.pins[pin].product == product && s.pins[pin].revision == s.clock[product].revision
  }

  lemma RouteIsPointer(s: Store, product: string)
    requires Chains(s) && product in s.clock
    ensures s.clock[product].route.SOURCE_FALLBACK? <==> product !in s.pointer
  {
    assert Folded(s, product);
  }

  /**
  Resolving and verifying.  In every run it is good exactly when the pin name fits and the
  product's current binding is the source's, or is seen by the reader, table by table,
  with the bound snapshot and row count; the result lists what was read.
  */
  lemma ResolvedIff(ops: seq<Op>, product: string, pin: string, read: Reader)
    ensures var s := PublicationFacts.Run(EMPTY, ops);
      var (s', answer) := Resolve(s, product, pin, read);
      && (answer.Good? <==> PinFitsNow(s, product, pin) && CurrentMatches(s, product, read))
      && (answer.Good? ==>
            && PinsCurrent(s, product, answer.value.pin)
            && (product in s.pointer ==>
                  Lists(answer.value.observed, s.generations[s.pointer[product].gen].tableMap, read)))
      && s' == s.(pins := s'.pins)
  {
    hide PublicationFacts.Run, PinAs, VerifyPin, AllMatch, Lists, Chains, Ledger, Pins, Lifecycle;
    var s := PublicationFacts.Run(EMPTY, ops);
    PinIff(ops, product, pin);
    PointerIsFoldOfLog(ops);
    if PinAs(s, product, pin).Ok? {
      RouteIsPointer(s, product);
      PinVerifiedIff(PinAs(s, product, pin).value.1, read);
    }
  }

  /** The run is not yet past verification. */
  predicate Unverified(runs: map<string, Orchestration.Run>, run: string)
  {
    run in runs ==> runs[run].state in {PLANNED, ELIGIBLE, PUBLISHING, VERIFYING}
  }

  lemma PrepareLeadsOn(sys: System, q: Request)
    requires Unverified(sys.runs, q.run)
    ensures var s3 := Prepare(sys, q, 3);
      q.run in s3.runs && s3.runs[q.run].state in {PUBLISHING, VERIFYING} && s3.store == sys.store
  {
  }

  lemma VerifyCloses(sys: System, q: Request, receipt: Receipt, read: Reader)
    requires q.run in sys.runs && sys.runs[q.run].state in {PUBLISHING, VERIFYING}
    ensures var (sys', outcome) := Verify(sys, q, receipt, read, Unlimited);
      var (store, answer) := Resolve(sys.store, q.product, q.pin, read);
      && q.run in sys'.runs && sys'.store == store
      && sys'.runs[q.run].state == (if answer.Good? then ACTIVE else INCIDENT)
      && (outcome.Finished? <==> answer.Good?)
      && (outcome.Finished? ==>
            outcome.receipt == receipt && outcome.verification == answer.value && outcome.run == sys'.runs[q.run])
      && (answer.Bad? ==> outcome == Orchestration.Raised(answer.fault))
      && sys'.runs[q.run].attempt == Some(q.attempt) && sys'.runs[q.run].product == sys.runs[q.run].product
      && sys'.runs[q.run].detail == (if answer.Good? then Verified(answer.value) else Failure(answer.fault))
      && (forall other :: other in sys.runs && other != q.run ==>
            other in sys'.runs && sys'.runs[other] == sys.runs[other])
  {
    hide Resolve;
  }

  lemma StoreAfterAttempt(ops: seq<Op>, q: Request)
    ensures AttemptAndReconcile(PublicationFacts.Run(EMPTY, ops), q.attempt, PublishPayload(q), false).0
         == PublicationFacts.Run(EMPTY, ops + [AttemptOp(q.attempt, PublishPayload(q))])
  {
    hide Act, PublicationFacts.Run;
    PublicationLifecycle.RunAppend(EMPTY, ops, AttemptOp(q.attempt, PublishPayload(q)));
  }

  lemma PublishIsVerify(sys: System, q: Request, read: Reader)
    ensures var s3 := Prepare(sys, q, 3);
      var (store, answer) := AttemptAndReconcile(s3.store, q.attempt, PublishPayload(q), false);
      PublishAndVerify(sys, q, read, false, Unlimited) ==
        match answer
        case Bad(fault) => (s3.(store := store), Orchestration.Raised(fault))
        case Good(receipt) => Verify(s3.(store := store), q, receipt, read, Unlimited)
  {
    hide AttemptAndReconcile, Verify, Prepare;
  }

  lemma AttemptIsAct(s: Store, attempt: string, payload: Payload)
    ensures AttemptAndReconcile(s, attempt, payload, false).1.Good? <==> Act(s, attempt, payload).Ok?
    ensures Act(s, attempt, payload).Ok? ==>
              AttemptAndReconcile(s, attempt, payload, false) ==
                (Act(s, attempt, payload).value.store, Good(Act(s, attempt, payload).value.receipt))
    ensures Act(s, attempt, payload).Err? ==> AttemptAndReconcile(s, attempt, payload, false).0 == s
  {
    hide Act;
  }

  /**
  How a publication ends.  In every run of the store, a complete call whose publication
  is granted closes its run as ACTIVE exactly when the binding then current is seen by
  the reader with its snapshots and row counts, and else as INCIDENT; one whose
  publication is refused leaves the store alone and the run where it prepared it.
  */
  lemma PublicationCloses(ops: seq<Op>, runs: map<string, Orchestration.Run>, q: Request, read: Reader)
    requires Unverified(runs, q.run)
    ensures var s := PublicationFacts.Run(EMPTY, ops);
      var (sys', outcome) := PublishAndVerify(System(s, runs), q, read, false, Unlimited);
      && q.run in sys'.runs
      && if Act(s, q.attempt, PublishPayload(q)).Ok? then
           var m := Act(s, q.attempt, PublishPayload(q)).value;
           var verified := PinFitsNow(m.store, q.product, q.pin) && CurrentMatches(m.store, q.product, read);
           && sys'.runs[q.run].state == (if verified then ACTIVE else INCIDENT)
           && (outcome.Finished? <==> verified)
           && (outcome.Finished? ==> outcome.receipt == m.receipt && Answers(PublishPayload(q), outcome.receipt))
         else
           sys'.store == s && !outcome.Finished? && sys'.runs[q.run].state in {PUBLISHING, VERIFYING}
  {
    hide PublicationFacts.Run, Act, Prepare, AttemptAndReconcile, Verify, Resolve, PublishAndVerify, Answers;
    hide CurrentMatches, PinFitsNow, PinsCurrent, Lists;
    var s := PublicationFacts.Run(EMPTY, ops);
    var op := AttemptOp(q.attempt, PublishPayload(q));
    PrepareLeadsOn(System(s, runs), q);
    PublishIsVerify(System(s, runs), q, read);
    AttemptIsAct(s, q.attempt, PublishPayload(q));
    if Act(s, q.attempt, PublishPayload(q)).Ok? {
      var m := Act(s, q.attempt, PublishPayload(q)).value;
      StoreAfterAttempt(ops, q);
      ResolvedIff(ops + [op], q.product, q.pin, read);
      VerifyCloses(Prepare(System(s, runs), q, 3).(store := m.store), q, m.receipt, read);
      ReceiptAnswersRequest(ops, q.attempt, PublishPayload(q));
    }
  }

  /** The states a run may go to next. */
  predicate Next(from: RunState, to: RunState)
  {
    match from
    case PLANNED => to == ELIGIBLE
    case ELIGIBLE => to == PUBLISHING
    case PUBLISHING => to == VERIFYING
    case VERIFYING => to == ACTIVE || to == INCIDENT
    case ACTIVE => to == INCIDENT
    case INCIDENT => to == RECOVERING
    case RECOVERING => to == SOURCE_FALLBACK_VERIFIED || to == ROLLBACK_VERIFIED
    case SOURCE_FALLBACK_VERIFIED => false
    case ROLLBACK_VERIFIED => false
  }

  /** A stored run moves exactly at its current revision and to a state that may come next. */
  lemma TransitionIff(runs: map<string, Orchestration.Run>, run: string, expected: nat, to: RunState,
                      attempt: Option<string>, detail: Detail)
    ensures var r := TransitionRun(runs, run, expected, to, attempt, detail);
      && (r.Good? <==> run in runs && runs[run].revision == expected && Next(runs[run].state, to))
      && (r.Good? ==>
            r.value == runs[run := Orchestration.Run(runs[run].product, to, expected + 1, attempt, detail)])
      && (r.Bad? ==> r.fault == if run !in runs then CB27O003_RUN_UNKNOWN
                                else if runs[run].revision != expected then CB27O001_STALE_RUN_REVISION
                                else CB27O002_ILLEGAL_RUN_TRANSITION)
  {
  }

  /** An answer is lost exactly where it should be and the attempt newly succeeded. */
  lemma LostIff(s: Store, attempt: string, payload: Payload, lose: bool)
    ensures var (s', ack) := Orchestration.Attempt(s, attempt, payload, lose);
      && (ack.Ambiguous? <==> lose && attempt !in s.attempts && Act(s, attempt, payload).Ok?)
      && (Act(s, attempt, payload).Ok? ==> s' == Act(s, attempt, payload).value.store)
  {
    hide Act;
  }

  /** How far a first publication got that was killed after `n` writes. */
  ghost predicate KilledAt(n: nat, q: Request, runs': map<string, Orchestration.Run>)
  {
    match n
    case 0 => q.run !in runs'
    case 1 => q.run in runs' && runs'[q.run] == Orchestration.Run(q.product, PLANNED, 0, None, Empty)
    case 2 => q.run in runs' && runs'[q.run] == Orchestration.Run(q.product, ELIGIBLE, 1, None, ForGeneration(q.gen))
    case 3 => q.run in runs'
      && runs'[q.run] == Orchestration.Run(q.product, PUBLISHING, 2, Some(q.attempt), Expecting(q.expected))
    case 4 => q.run in runs'
      && runs'[q.run] == Orchestration.Run(q.product, PUBLISHING, 2, Some(q.attempt), Expecting(q.expected))
    case _ => q.run in runs' && runs'[q.run].state == VERIFYING && runs'[q.run].revision == 3
  }

  /**
  Where a first publication stands that is killed: after each number of writes, the run is
  as far as that number says, the store is touched from the fourth write on and pinned by
  the sixth; and it is over exactly with the seventh.
  */
  lemma PublicationSteps(sys: System, q: Request, read: Reader, n: nat)
    requires q.run !in sys.runs && Act(sys.store, q.attempt, PublishPayload(q)).Ok?
    ensures var (sys', outcome) := PublishAndVerify(sys, q, read, false, Writes(n));
      var published := Act(sys.store, q.attempt, PublishPayload(q)).value.store;
      && (outcome.Dead? <==> n < 7)
      && (n < 7 ==> KilledAt(n, q, sys'.runs))
      && sys'.store == (if n < 4 then sys.store else if n < 6 then published
                        else Resolve(published, q.product, q.pin, read).0)
      && (n >= 7 ==> (sys', outcome) == PublishAndVerify(sys, q, read, false, Unlimited))
  {
    hide PublishPayload;
    hide Act, Resolve;
    AttemptIsAct(sys.store, q.attempt, PublishPayload(q));
    hide AttemptAndReconcile;
  }

  /** A run that a fallback takes up. */
  predicate Recoverable(runs: map<string, Orchestration.Run>, run: string)
  {
    run in runs && (runs[run].state == ACTIVE || runs[run].state == INCIDENT || runs[run].state == RECOVERING)
  }

  /**
  How a fallback ends.  A complete call on an active run, or on one that is in an incident
  or recovering, closes it as verified on the source exactly if the fallback is granted and
  the source pin stands for the source route; else the run stays recovering.  A run that
  is unknown is refused.
  */
  lemma FallbackCloses(sys: System, q: Request)
    ensures var (sys', outcome) := FallbackAndVerify(sys, q, false, Unlimited);
      var r := Act(sys.store, q.attempt, FallbackPayload(q));
      && (q.run !in sys.runs ==> sys' == sys && outcome == Orchestration.Raised(CB27O003_RUN_UNKNOWN))
      && (Recoverable(sys.runs, q.run) ==>
            && q.run in sys'.runs
            && (r.Err? ==> sys'.store == sys.store && outcome == Orchestration.Raised(InStore(r.code))
                           && sys'.runs[q.run].state == RECOVERING)
            && (r.Ok? ==> Recovered(sys, q, r.value, sys', outcome)))
  {
    hide NoReader;
    hide Act, Resolve;
    AttemptIsAct(sys.store, q.attempt, FallbackPayload(q));
    RefusalPasses(sys.store, q.attempt, FallbackPayload(q));
    hide AttemptAndReconcile;
  }

  lemma RefusalPasses(s: Store, attempt: string, payload: Payload)
    ensures Act(s, attempt, payload).Err? ==>
      AttemptAndReconcile(s, attempt, payload, false).1 == Bad(InStore(Act(s, attempt, payload).code))
  {
    hide Act;
  }

  /** What a granted fallback leaves. */
  ghost predicate Recovered(sys: System, q: Request, m: Moved, sys': System, outcome: Outcome)
    requires q.run in sys.runs && q.run in sys'.runs
  {
    var (store, answer) := Resolve(m.store, q.product, q.attempt + ":source-pin", NoReader());
    && sys'.store == store
    && sys'.runs[q.run].state == (if answer.Good? then SOURCE_FALLBACK_VERIFIED else RECOVERING)
    && sys'.runs[q.run].attempt == (if answer.Good? || sys.runs[q.run].state != RECOVERING then Some(q.attempt)
                                    else sys.runs[q.run].attempt)
    && sys'.runs[q.run].product == sys.runs[q.run].product
    && (answer.Good? ==> sys'.runs[q.run].detail == Receipted(m.receipt)
                         && outcome == Finished(m.receipt, answer.value, sys'.runs[q.run]))
    && (answer.Bad? ==> outcome == Orchestration.Raised(answer.fault))
    && (forall other :: other in sys.runs && other != q.run ==>
            other in sys'.runs && sys'.runs[other] == sys.runs[other])
  }

  lemma StoreAfterFallback(ops: seq<Op>, q: Request)
    requires Act(PublicationFacts.Run(EMPTY, ops), q.attempt, FallbackPayload(q)).Ok?
    ensures Act(PublicationFacts.Run(EMPTY, ops), q.attempt, FallbackPayload(q)).value.store
         == PublicationFacts.Run(EMPTY, ops + [AttemptOp(q.attempt, FallbackPayload(q))])
  {
    hide Act, PublicationFacts.Run;
    PublicationLifecycle.RunAppend(EMPTY, ops, AttemptOp(q.attempt, FallbackPayload(q)));
  }

  /**
  In every run of the store, a complete fallback on a recoverable run closes it as verified
  on the source exactly if it is granted, its source pin fits, and the product then stands
  on the source (or on tables that a consumer which reads nothing would accept).
  */
  lemma FallbackEnds(ops: seq<Op>, runs: map<string, Orchestration.Run>, q: Request)
    requires Recoverable(runs, q.run)
    ensures var s := PublicationFacts.Run(EMPTY, ops);
      var (sys', outcome) := FallbackAndVerify(System(s, runs), q, false, Unlimited);
      var r := Act(s, q.attempt, FallbackPayload(q));
      var verified := r.Ok? && PinFitsNow(r.value.store, q.product, q.attempt + ":source-pin")
                      && CurrentMatches(r.value.store, q.product, NoReader());
      && q.run in sys'.runs && (sys'.runs[q.run].state == SOURCE_FALLBACK_VERIFIED <==> verified)
      && (outcome.Finished? <==> verified)
      && (verified ==> outcome.receipt == r.value.receipt && Answers(FallbackPayload(q), outcome.receipt))
  {
    hide PublicationFacts.Run, Act, Resolve, FallbackAndVerify, Answers, CurrentMatches, PinFitsNow, PinsCurrent, Lists;
    hide NoReader;
    var s := PublicationFacts.Run(EMPTY, ops);
    FallbackCloses(System(s, runs), q);
    if Act(s, q.attempt, FallbackPayload(q)).Ok? {
      StoreAfterFallback(ops, q);
      ResolvedIff(ops + [AttemptOp(q.attempt, FallbackPayload(q))], q.product, q.attempt + ":source-pin", NoReader());
      ReceiptAnswersRequest(ops, q.attempt, FallbackPayload(q));
      var m := Act(s, q.attempt, FallbackPayload(q)).value;
      var (sys', outcome) := FallbackAndVerify(System(s, runs), q, false, Unlimited);
      assert Recovered(System(s, runs), q, m, sys', outcome);
      var answer := Resolve(m.store, q.product, q.attempt + ":source-pin", NoReader()).1;
      assert answer.Good? <==> PinFitsNow(m.store, q.product, q.attempt + ":source-pin")
                               && CurrentMatches(m.store, q.product, NoReader());
    }
  }

  /**
  Where a fallback of an active run stands that is killed: an incident after one write,
  recovering after two, the store moved after three and pinned after four; and it is over
  with the fifth if the pin stands for the source.
  */
  lemma FallbackSteps(sys: System, q: Request, n: nat)
    requires q.run in sys.runs && sys.runs[q.run].state == ACTIVE
    requires Act(sys.store, q.attempt, FallbackPayload(q)).Ok?
    ensures var (sys', outcome) := FallbackAndVerify(sys, q, false, Writes(n));
      var moved := Act(sys.store, q.attempt, FallbackPayload(q)).value.store;
      var (pinned, answer) := Resolve(moved, q.product, q.attempt + ":source-pin", NoReader());
      var run' := sys'.runs[q.run];
      && q.run in sys'.runs
      && (outcome.Dead? <==> n < 4 || (n == 4 && answer.Good?))
      && (n < 5 ==> run'.state == if n == 0 then ACTIVE else if n == 1 then INCIDENT else RECOVERING)
      && (n < 5 ==> run'.revision == sys.runs[q.run].revision + if n < 2 then n else 2)
      && sys'.store == (if n < 3 then sys.store else if n < 4 then moved else pinned)
  {
    hide Act, Resolve;
    AttemptIsAct(sys.store, q.attempt, FallbackPayload(q));
    hide AttemptAndReconcile;
  }
}
