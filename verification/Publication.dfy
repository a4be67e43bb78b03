/**
The publication store (publication.py): a revision clock per product that
survives the absence of a pointer, an attempt ledger, an event log and consumer
pins.  Every function describes one committed transaction of the store.
*/
module Publication {
  import opened Common

  datatype Route = SOURCE_FALLBACK | GENERATION

  datatype State = PROVEN | PUBLISHED | ROLLED_BACK

  datatype TableBinding = TableBinding(identifier: string, snapshot: string, manifestList: string, rows: nat)

  type TableMap = map<string, TableBinding>

  datatype BindingBody = BindingBody(gen: string, frontier: string, schemaSet: string, proof: string,
                                     tableMap: TableMap, tableMapDigest: string)

  /** A binding digest is the digest of a body, or a text that is none. */
  datatype Digest = OfBody(body: BindingBody) | Given(text: string)

  /** What a pointer, a receipt or a pin repeats of a generation's binding. */
  datatype Bound = Bound(proof: string, tableMapDigest: string, binding: Digest)

  datatype Clock = Clock(revision: nat, route: Route)

  datatype Pointer = Pointer(gen: string, revision: nat, attempt: string, bound: Bound)

  datatype Generation = Generation(frontier: string, schemaSet: string, bound: Bound, tableMap: TableMap,
                                   contract: string, state: State, retained: bool, readable: bool,
                                   retired: bool, evidenceValid: bool, everPublished: bool)

  /** What an attempt asks for; attempts are compared by it. */
  datatype Payload =
    | Publish(product: string, gen: string, expected: int, authorization: string)
    | Fallback(product: string, expected: int, authorization: string)
    | Rollback(product: string, gen: string, expected: int, authorization: string)

  datatype Action = PUBLISH | FIRST_PUBLICATION_FALLBACK | ROLLBACK

  datatype Receipt = Receipt(attempt: string, action: Action, product: string, gen: Option<string>,
                             prior: Option<string>, expected: nat, resulting: nat, bound: Option<Bound>)

  datatype Event = Event(product: string, attempt: string, action: Action, from: nat, to: nat,
                         fromGen: Option<string>, toGen: Option<string>)
  {
    /** The primary key: a digest of everything but the product. */
    function Decision(): (string, Action, nat, nat, Option<string>, Option<string>) {
      (attempt, action, from, to, fromGen, toGen)
    }
  }

  datatype Pin = Pin(product: string, revision: nat, route: Route, gen: Option<string>,
                     bound: Option<(string, string)>, tableMap: Option<TableMap>)

  datatype Store = Store(clock: map<string, Clock>, pointer: map<string, Pointer>,
                         generations: map<string, Generation>, attempts: map<string, (Payload, Receipt)>,
                         events: seq<Event>, pins: map<string, Pin>)

  datatype Code =
    | CB27B005_BINDING_DIGEST
    | CB27B006_GENERATION_BINDING_CONFLICT
    | CB27C001_PRODUCT_UNKNOWN
    | CB27C002_POINTER_CLOCK_INCONSISTENT
    | CB27C003_PIN_CONFLICT
    | CB27F001_AUTHORIZATION_REQUIRED
    | CB27F002_POINTER_OUTCOME_UNRESOLVED
    | CB27P004_GENERATION_UNKNOWN
    | CB27P005_ATTEMPT_REPLAY_CONFLICT
    | CB27P006_GENERATION_INELIGIBLE
    | CB27P007_STALE_REVISION
    | CB27P009_ATTEMPT_OUTCOME_UNKNOWN
    | CB27P010_ATTEMPT_CLOCK_DIVERGENCE
    | CB27R001_AUTHORIZATION_REQUIRED
    | CB27R002_TARGET_ALREADY_ACTIVE
    | INTEGRITY_ERROR
    | UNSUPPORTED_FLAG

  datatype Result<+T> = Ok(value: T) | Err(code: Code)

  datatype Current = Current(revision: nat, route: Route, pointer: Option<Pointer>)

  datatype Moved = Moved(store: Store, receipt: Receipt)

  const EMPTY := Store(map[], map[], map[], map[], [], map[])

  function Initialize(s: Store, product: string): Store
  {
    if product in s.clock then s else s.(clock := s.clock[product := Clock(0, SOURCE_FALLBACK)])
  }

  function PointerOf(s: Store, product: string): Option<Pointer>
  {
    if product in s.pointer then Some(s.pointer[product]) else None
  }

  function CurrentOf(s: Store, product: string): Result<Current>
  {
    if product !in s.clock then Err(CB27C001_PRODUCT_UNKNOWN)
    else if s.clock[product].route.SOURCE_FALLBACK? != (product !in s.pointer)
    then Err(CB27C002_POINTER_CLOCK_INCONSISTENT)
    else Ok(Current(s.clock[product].revision, s.clock[product].route, PointerOf(s, product)))
  }

  function NewGeneration(body: BindingBody, digest: Digest, contract: string): Generation
  {
    Generation(body.frontier, body.schemaSet, Bound(body.proof, body.tableMapDigest, digest), body.tableMap,
               contract, PROVEN, true, true, false, true, false)
  }

  /** The columns that a replayed registration must repeat. */
  function Immutable(g: Generation): (string, string, Bound, TableMap, string)
  {
    (g.frontier, g.schemaSet, g.bound, g.tableMap, g.contract)
  }

  function Register(s: Store, body: BindingBody, digest: Digest, contract: string): Result<Store>
  {
    var row := NewGeneration(body, digest, contract);
    if digest != OfBody(body) then Err(CB27B005_BINDING_DIGEST)
    else if body.gen in s.generations then
      if Immutable(s.generations[body.gen]) != Immutable(row) then Err(CB27B006_GENERATION_BINDING_CONFLICT)
      else Ok(s)
    else Ok(s.(generations := s.generations[body.gen := row]))
  }

  function Eligible(s: Store, gen: string, rollback: bool): Result<Generation>
  {
    if gen !in s.generations then Err(CB27P004_GENERATION_UNKNOWN)
    else
      var g := s.generations[gen];
      if && (g.state.PROVEN? || (rollback && g.state.PUBLISHED?))
         && g.retained && g.readable && !g.retired && g.evidenceValid
         && (!rollback || g.everPublished)
      then Ok(g) else Err(CB27P006_GENERATION_INELIGIBLE)
  }

  function EventOf(r: Receipt): Event
  {
    Event(r.product, r.attempt, r.action, r.expected, r.resulting, r.prior, r.gen)
  }

  /** Insert the attempt and its event; the event's key must be new. */
  function Log(s: Store, payload: Payload, r: Receipt): Result<Moved>
  {
    if exists e :: e in s.events && e.Decision() == EventOf(r).Decision() then Err(INTEGRITY_ERROR)
    else Ok(Moved(s.(attempts := s.attempts[r.attempt := (payload, r)], events := s.events + [EventOf(r)]), r))
  }

  function GenOf(p: Option<Pointer>): Option<string>
  {
    match p case None => None case Some(q) => Some(q.gen)
  }

  function PublishNew(s: Store, attempt: string, payload: Payload): Result<Moved>
    requires payload.Publish?
  {
    var product, gen := payload.product, payload.gen;
    match CurrentOf(s, product)
    case Err(code) => Err(code)
    case Ok(current) =>
      if current.revision != payload.expected then Err(CB27P007_STALE_REVISION)
      else match Eligible(s, gen, false)
        case Err(code) => Err(code)
        case Ok(g) =>
          var revision := current.revision + 1;
          var r := Receipt(attempt, PUBLISH, product, Some(gen), GenOf(current.pointer), current.revision, revision,
                           Some(g.bound));
          Log(s.(clock := s.clock[product := Clock(revision, GENERATION)],
                 pointer := s.pointer[product := Pointer(gen, revision, attempt, g.bound)],
                 generations := s.generations[gen := g.(state := PUBLISHED, everPublished := true)]),
              payload, r)
  }

  function FallbackNew(s: Store, attempt: string, payload: Payload): Result<Moved>
    requires payload.Fallback?
  {
    var product := payload.product;
    match CurrentOf(s, product)
    case Err(code) => Err(code)
    case Ok(current) =>
      if current.revision != payload.expected || current.pointer.None? then Err(CB27P007_STALE_REVISION)
      else if current.pointer.value.revision != payload.expected then Err(CB27F002_POINTER_OUTCOME_UNRESOLVED)
      else
        var revision := current.revision + 1;
        var r := Receipt(attempt, FIRST_PUBLICATION_FALLBACK, product, None, GenOf(current.pointer),
                         current.revision, revision, None);
        Log(s.(clock := s.clock[product := Clock(revision, SOURCE_FALLBACK)],
               pointer := s.pointer - {product}),
            payload, r)
  }

  function RolledBack(generations: map<string, Generation>, gen: string): map<string, Generation>
  {
    if gen in generations then generations[gen := generations[gen].(state := ROLLED_BACK)] else generations
  }

  function RollbackNew(s: Store, attempt: string, payload: Payload): Result<Moved>
    requires payload.Rollback?
  {
    var product, gen := payload.product, payload.gen;
    match CurrentOf(s, product)
    case Err(code) => Err(code)
    case Ok(current) =>
      if current.revision != payload.expected || current.pointer.None? then Err(CB27P007_STALE_REVISION)
      else if current.pointer.value.gen == gen then Err(CB27R002_TARGET_ALREADY_ACTIVE)
      else match Eligible(s, gen, true)
        case Err(code) => Err(code)
        case Ok(g) =>
          var revision := current.revision + 1;
          var r := Receipt(attempt, ROLLBACK, product, Some(gen), GenOf(current.pointer), current.revision, revision,
                           Some(g.bound));
          Log(s.(clock := s.clock[product := Clock(revision, current.route)],
                 pointer := s.pointer[product := Pointer(gen, revision, attempt, g.bound)],
                 generations := RolledBack(s.generations, current.pointer.value.gen)),
              payload, r)
  }

  /** One publication attempt: authorization, replay detection, then the move. */
  function Act(s: Store, attempt: string, payload: Payload): Result<Moved>
  {
    if payload.Fallback? && payload.authorization == "" then Err(CB27F001_AUTHORIZATION_REQUIRED)
    else if payload.Rollback? && payload.authorization == "" then Err(CB27R001_AUTHORIZATION_REQUIRED)
    else if attempt in s.attempts then
      if s.attempts[attempt].0 != payload then Err(CB27P005_ATTEMPT_REPLAY_CONFLICT)
      else Ok(Moved(s, s.attempts[attempt].1))
    else match payload
      case Publish(_, _, _, _) => PublishNew(s, attempt, payload)
      case Fallback(_, _, _) => FallbackNew(s, attempt, payload)
      case Rollback(_, _, _, _) => RollbackNew(s, attempt, payload)
  }

  function Reconcile(s: Store, attempt: string): Result<Receipt>
  {
    if attempt !in s.attempts then Err(CB27P009_ATTEMPT_OUTCOME_UNKNOWN)
    else
      var r := s.attempts[attempt].1;
      match CurrentOf(s, r.product)
      case Err(code) => Err(code)
      case Ok(current) =>
        if current.revision < r.resulting then Err(CB27P010_ATTEMPT_CLOCK_DIVERGENCE) else Ok(r)
  }

  /** The pin body of the current route. */
  function PinBody(s: Store, product: string): Result<Pin>
  {
    match CurrentOf(s, product)
    case Err(code) => Err(code)
    case Ok(current) =>
      match current.pointer
      case None => Ok(Pin(product, current.revision, current.route, None, None, None))
      case Some(p) =>
        if p.gen !in s.generations then Err(CB27P004_GENERATION_UNKNOWN)
        else Ok(Pin(product, current.revision, current.route, Some(p.gen),
                    Some((p.bound.proof, p.bound.tableMapDigest)), Some(s.generations[p.gen].tableMap)))
  }

  function PinAs(s: Store, product: string, pin: string): Result<(Store, Pin)>
  {
    match PinBody(s, product)
    case Err(code) => Err(code)
    case Ok(body) =>
      if pin in s.pins then
        if s.pins[pin] != body then Err(CB27C003_PIN_CONFLICT) else Ok((s, body))
      else Ok((s.(pins := s.pins[pin := body]), body))
  }

  const FLAGS := {"retained", "readable", "retired", "evidence_valid"}

  function Set(old_: bool, flags: map<string, bool>, name: string): bool { if name in flags then flags[name] else old_ }

  function Flagged(g: Generation, flags: map<string, bool>): Generation
  {
    g.(retained := Set(g.retained, flags, "retained"), readable := Set(g.readable, flags, "readable"),
       retired := Set(g.retired, flags, "retired"), evidenceValid := Set(g.evidenceValid, flags, "evidence_valid"))
  }

  /** Flags that are given are set, and there must be some; an unknown generation is left alone. */
  function SetEligibility(s: Store, gen: string, flags: map<string, bool>): Result<Store>
  {
    if flags == map[] || !(flags.Keys <= FLAGS) then Err(UNSUPPORTED_FLAG)
    else if gen !in s.generations then Ok(s)
    else Ok(s.(generations := s.generations[gen := Flagged(s.generations[gen], flags)]))
  }

  /** publication.py's `PublicationStore`, without the orchestration runs. */
  class PublicationStore {
    var clock: map<string, Clock>
    var pointer: map<string, Pointer>
    var generations: map<string, Generation>
    var attempts: map<string, (Payload, Receipt)>
    var events: seq<Event>
    var pins: map<string, Pin>

    ghost function Value(): Store
      reads this
    {
      Store(clock, pointer, generations, attempts, events, pins)
    }

    constructor ()
      ensures Value() == EMPTY
    {
      clock, pointer, generations, attempts, events, pins := map[], map[], map[], map[], [], map[];
    }

    method InitializeProduct(product: string)
      modifies this
      ensures Value() == Initialize(old(Value()), product)
    {
      if product !in clock {
        clock := clock[product := Clock(0, SOURCE_FALLBACK)];
      }
    }

    method GetCurrent(product: string) returns (r: Result<Current>)
      ensures r == CurrentOf(Value(), product)
    {
      if product !in clock {
        return Err(CB27C001_PRODUCT_UNKNOWN);
      }
      var p := if product in pointer then Some(pointer[product]) else None;
      if clock[product].route.SOURCE_FALLBACK? != p.None? {
        return Err(CB27C002_POINTER_CLOCK_INCONSISTENT);
      }
      r := Ok(Current(clock[product].revision, clock[product].route, p));
    }

    method RegisterGeneration(body: BindingBody, digest: Digest, contract: string) returns (code: Option<Code>)
      modifies this
      ensures match Register(old(Value()), body, digest, contract)
              case Ok(s) => code == None && Value() == s
              case Err(c) => code == Some(c) && Value() == old(Value())
    {
      if digest != OfBody(body) {
        return Some(CB27B005_BINDING_DIGEST);
      }
      var row := NewGeneration(body, digest, contract);
      if body.gen in generations {
        return if Immutable(generations[body.gen]) != Immutable(row)
          then Some(CB27B006_GENERATION_BINDING_CONFLICT) else None;
      }
      generations := generations[body.gen := row];
      code := None;
    }

    method FindEligible(gen: string, rollback: bool) returns (r: Result<Generation>)
      ensures r == Eligible(Value(), gen, rollback)
    {
      if gen !in generations {
        return Err(CB27P004_GENERATION_UNKNOWN);
      }
      var g := generations[gen];
      var stateAllowed := g.state.PROVEN? || (rollback && g.state.PUBLISHED?);
      r := if && stateAllowed && g.retained && g.readable && !g.retired && g.evidenceValid
              && (!rollback || g.everPublished)
        then Ok(g) else Err(CB27P006_GENERATION_INELIGIBLE);
    }

    /** `_insert_attempt` and `_insert_event`. */
    method LogMove(payload: Payload, receipt: Receipt)
      requires forall e :: e in events ==> e.Decision() != EventOf(receipt).Decision()
      modifies this`attempts, this`events
      ensures Log(old(Value()), payload, receipt) == Ok(Moved(Value(), receipt))
    {
      attempts := attempts[receipt.attempt := (payload, receipt)];
      events := events + [EventOf(receipt)];
    }

    method PublishGeneration(attempt: string, payload: Payload) returns (r: Result<Receipt>)
      requires payload.Publish?
      modifies this
      ensures match Act(old(Value()), attempt, payload)
              case Ok(m) => r == Ok(m.receipt) && Value() == m.store
              case Err(code) => r == Err(code) && Value() == old(Value())
    {
      if attempt in attempts {
        return if attempts[attempt].0 != payload then Err(CB27P005_ATTEMPT_REPLAY_CONFLICT)
          else Ok(attempts[attempt].1);
      }
      var current := GetCurrent(payload.product);
      if current.Err? {
        return Err(current.code);
      }
      if current.value.revision != payload.expected {
        return Err(CB27P007_STALE_REVISION);
      }
      var g := FindEligible(payload.gen, false);
      if g.Err? {
        return Err(g.code);
      }
      var revision := current.value.revision + 1;
      var receipt := Receipt(attempt, PUBLISH, payload.product, Some(payload.gen), GenOf(current.value.pointer),
                             current.value.revision, revision, Some(g.value.bound));
      if exists e :: e in events && e.Decision() == EventOf(receipt).Decision() {
        return Err(INTEGRITY_ERROR);
      }
      clock := clock[payload.product := Clock(revision, GENERATION)];
      pointer := pointer[payload.product := Pointer(payload.gen, revision, attempt, g.value.bound)];
      generations := generations[payload.gen := g.value.(state := PUBLISHED, everPublished := true)];
      LogMove(payload, receipt);
      r := Ok(receipt);
    }

    method FirstPublicationFallback(attempt: string, payload: Payload) returns (r: Result<Receipt>)
      requires payload.Fallback?
      modifies this
      ensures match Act(old(Value()), attempt, payload)
              case Ok(m) => r == Ok(m.receipt) && Value() == m.store
              case Err(code) => r == Err(code) && Value() == old(Value())
    {
      if payload.authorization == "" {
        return Err(CB27F001_AUTHORIZATION_REQUIRED);
      }
      if attempt in attempts {
        return if attempts[attempt].0 != payload then Err(CB27P005_ATTEMPT_REPLAY_CONFLICT)
          else Ok(attempts[attempt].1);
      }
      var current := GetCurrent(payload.product);
      if current.Err? {
        return Err(current.code);
      }
      var p := current.value.pointer;
      if current.value.revision != payload.expected || p.None? {
        return Err(CB27P007_STALE_REVISION);
      }
      if p.value.revision != payload.expected {
        return Err(CB27F002_POINTER_OUTCOME_UNRESOLVED);
      }
      var revision := current.value.revision + 1;
      var receipt := Receipt(attempt, FIRST_PUBLICATION_FALLBACK, payload.product, None, GenOf(p),
                             current.value.revision, revision, None);
      if exists e :: e in events && e.Decision() == EventOf(receipt).Decision() {
        return Err(INTEGRITY_ERROR);
      }
      pointer := pointer - {payload.product};
      clock := clock[payload.product := Clock(revision, SOURCE_FALLBACK)];
      LogMove(payload, receipt);
      r := Ok(receipt);
    }

    method RollBack(attempt: string, payload: Payload) returns (r: Result<Receipt>)
      requires payload.Rollback?
      modifies this
      ensures match Act(old(Value()), attempt, payload)
              case Ok(m) => r == Ok(m.receipt) && Value() == m.store
              case Err(code) => r == Err(code) && Value() == old(Value())
    {
      hide CurrentOf, Eligible;
      if payload.authorization == "" {
        return Err(CB27R001_AUTHORIZATION_REQUIRED);
      }
      if attempt in attempts {
        return if attempts[attempt].0 != payload then Err(CB27P005_ATTEMPT_REPLAY_CONFLICT)
          else Ok(attempts[attempt].1);
      }
      var current := GetCurrent(payload.product);
      if current.Err? {
        return Err(current.code);
      }
      var p := current.value.pointer;
      if current.value.revision != payload.expected || p.None? {
        return Err(CB27P007_STALE_REVISION);
      }
      if p.value.gen == payload.gen {
        return Err(CB27R002_TARGET_ALREADY_ACTIVE);
      }
      var g := FindEligible(payload.gen, true);
      if g.Err? {
        return Err(g.code);
      }
      var revision := current.value.revision + 1;
      var receipt := Receipt(attempt, ROLLBACK, payload.product, Some(payload.gen), GenOf(p),
                             current.value.revision, revision, Some(g.value.bound));
      if exists e :: e in events && e.Decision() == EventOf(receipt).Decision() {
        return Err(INTEGRITY_ERROR);
      }
      clock := clock[payload.product := Clock(revision, current.value.route)];
      pointer := pointer[payload.product := Pointer(payload.gen, revision, attempt, g.value.bound)];
      generations := RolledBack(generations, p.value.gen);
      LogMove(payload, receipt);
      r := Ok(receipt);
    }

    method ReconcileAttempt(attempt: string) returns (r: Result<Receipt>)
      ensures r == Reconcile(Value(), attempt)
    {
      if attempt !in attempts {
        return Err(CB27P009_ATTEMPT_OUTCOME_UNKNOWN);
      }
      var receipt := attempts[attempt].1;
      var current := GetCurrent(receipt.product);
      if current.Err? {
        return Err(current.code);
      }
      r := if current.value.revision < receipt.resulting then Err(CB27P010_ATTEMPT_CLOCK_DIVERGENCE) else Ok(receipt);
    }

    method PinConsumer(product: string, pin: string) returns (r: Result<Pin>)
      modifies this
      ensures match PinAs(old(Value()), product, pin)
              case Ok(done) => r == Ok(done.1) && Value() == done.0
              case Err(code) => r == Err(code) && Value() == old(Value())
    {
      var current := GetCurrent(product);
      if current.Err? {
        return Err(current.code);
      }
      var body := Pin(product, current.value.revision, current.value.route, None, None, None);
      if current.value.pointer.Some? {
        var p := current.value.pointer.value;
        if p.gen !in generations {
          return Err(CB27P004_GENERATION_UNKNOWN);
        }
        body := body.(gen := Some(p.gen), bound := Some((p.bound.proof, p.bound.tableMapDigest)),
                      tableMap := Some(generations[p.gen].tableMap));
      }
      if pin in pins {
        return if pins[pin] != body then Err(CB27C003_PIN_CONFLICT) else Ok(body);
      }
      pins := pins[pin := body];
      r := Ok(body);
    }

    method ChangeEligibility(gen: string, flags: map<string, bool>) returns (code: Option<Code>)
      modifies this
      ensures match SetEligibility(old(Value()), gen, flags)
              case Ok(s) => code == None && Value() == s
              case Err(c) => code == Some(c) && Value() == old(Value())
    {
      if flags == map[] || !(flags.Keys <= FLAGS) {
        return Some(UNSUPPORTED_FLAG);
      }
      if gen in generations {
        generations := generations[gen := Flagged(generations[gen], flags)];
      }
      code := None;
    }
  }
}
