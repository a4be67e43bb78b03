/**
Transaction assembly (transaction_assembler.py, cdc_ordering.py): admitted events are
ordered, grouped by transaction and described in a manifest; later, events that arrive
in any order are assembled against that manifest into apply plans.
*/
module Assembler {
  import opened Common
  import opened Sorting
  import opened Events
  import opened Lsn

  /** An event as it arrives. */
  datatype Arrival = Arrival(gen: string, tx: string, txSequence: int, sequence: int, id: string, operation: string,
                             table: string, key: string, before: Option<Row>, after: Option<Row>,
                             kind: string, position: string, schema: string, ingestedAt: string)

  datatype Descriptor = Descriptor(tx: string, txSequence: int, commitLsn: string, count: nat,
                                   ids: seq<string>, idSet: seq<string>, tables: seq<string>)

  /** What a manifest is the digest of. */
  datatype Authority = Authority(gen: string, previous: string, terminal: string, history: string,
                                 predecessor: string, transactions: seq<Descriptor>)

  datatype Manifest = Manifest(authority: Authority, id: string)

  /** A plan with its place in the order and the arrivals it was made of. */
  datatype Assembly = Assembly(txSequence: int, rows: seq<Arrival>, plan: Plan)

  datatype Code =
    | CB24O001_INVALID_LSN | CB24O002_POSITION_KIND | CB24O004_SEQUENCE_RANGE | CB24O005_INTERVAL_REGRESSION
    | CB24O006_EVENT_OUTSIDE_INTERVAL | CB24O007_DUPLICATE_SEQUENCE
    | CB24A001_FOREIGN_GENERATION | CB24A002_NONCONTIGUOUS_EVENT_SEQUENCE | CB24A003_OPERATION
    | CB24A004_STAGE5_POLICY_REQUIRED | CB24A005_IMAGE_SHAPE | CB24A007_TRANSACTION_SET
    | CB24A008_INCOMPLETE_TRANSACTION | CB24A009_COMMIT_LSN | CB24A010_TABLE_SET

  datatype Result<+T> = Ok(value: T) | Err(code: Code)

  /** `event_lsn`. */
  function EventLsn(e: Arrival): Result<nat>
  {
    if e.kind != "postgres_lsn" then Err(CB24O002_POSITION_KIND)
    else if Parse(e.position) == None then Err(CB24O001_INVALID_LSN)
    else Ok(Parse(e.position).value)
  }

  /** The error of the first event that has one. */
  function FirstError(events: seq<Arrival>, check: Arrival -> Option<Code>): Option<Code>
    decreases |events|
  {
    if events == [] then None
    else if check(events[0]) != None then check(events[0])
    else FirstError(events[1..], check)
  }

  function IntervalError(e: Arrival, lower: nat, upper: nat): Option<Code>
  {
    match EventLsn(e)
    case Err(code) => Some(code)
    case Ok(lsn) => if lsn <= lower || lsn > upper then Some(CB24O006_EVENT_OUTSIDE_INTERVAL) else None
  }

  /** `admit_interval`. */
  function IntervalFault(events: seq<Arrival>, previous: string, terminal: string): Option<Code>
  {
    match (Parse(previous), Parse(terminal))
    case (Some(lower), Some(upper)) =>
      if upper <= lower then Some(CB24O005_INTERVAL_REGRESSION)
      else FirstError(events, e => IntervalError(e, lower, upper))
    case _ => Some(CB24O001_INVALID_LSN)
  }

  function KeyFault(e: Arrival): Option<Code>
  {
    if e.txSequence < 0 || e.sequence < 1 then Some(CB24O004_SEQUENCE_RANGE)
    else match EventLsn(e)
      case Err(code) => Some(code)
      case Ok(_) => None
  }

  /** `event_order_key`. */
  function OrderKey(e: Arrival): Key { [Position(e.position), e.txSequence, e.sequence] + Chars(e.id) }

  function Slot(e: Arrival): (string, int) { (e.tx, e.sequence) }

  predicate DistinctSlots(events: seq<Arrival>)
  {
    forall i, j :: 0 <= i < j < |events| ==> Slot(events[i]) != Slot(events[j])
  }

  /** `ordered_events`. */
  function Ordered(events: seq<Arrival>): Result<seq<Arrival>>
  {
    match FirstError(events, KeyFault)
    case Some(code) => Err(code)
    case None =>
      if DistinctSlots(SortBy(events, OrderKey)) then Ok(SortBy(events, OrderKey)) else Err(CB24O007_DUPLICATE_SEQUENCE)
  }

  /** Transaction ids in the order of their first event. */
  function FirstSeen(events: seq<Arrival>): (r: seq<string>)
    ensures Distinct(r)
  {
    if events == [] then []
    else
      var last := events[|events| - 1];
      var front := FirstSeen(events[..|events| - 1]);
      if last.tx in front then front else front + [last.tx]
  }

  function Group(events: seq<Arrival>, tx: string): seq<Arrival>
  {
    if events == [] then []
    else
      var last := events[|events| - 1];
      Group(events[..|events| - 1], tx) + (if last.tx == tx then [last] else [])
  }

  lemma {:induction false} GroupMeans(events: seq<Arrival>, tx: string)
    ensures forall e :: e in Group(events, tx) <==> e in events && e.tx == tx
    ensures Group(events, tx) != [] <==> tx in FirstSeen(events)
  {
    if events != [] {
      assert events == events[..|events| - 1] + [events[|events| - 1]];
      GroupMeans(events[..|events| - 1], tx);
    }
  }

  function TxKey(txSequence: int, tx: string): Key { [txSequence] + Chars(tx) }

  function GroupKey(events: seq<Arrival>, tx: string): Key
  {
    var rows := Group(events, tx);
    TxKey(if rows == [] then 0 else rows[0].txSequence, tx)
  }

  function IdsOf(rows: seq<Arrival>): seq<string> { seq(|rows|, i requires 0 <= i < |rows| => rows[i].id) }

  function TableNames(rows: seq<Arrival>): seq<string> { seq(|rows|, i requires 0 <= i < |rows| => rows[i].table) }

  predicate Numbered(rows: seq<Arrival>) { forall i :: 0 <= i < |rows| ==> rows[i].sequence == i + 1 }

  function Describe(rows: seq<Arrival>, tx: string): Result<Descriptor>
    requires rows != []
  {
    if !Numbered(rows) then Err(CB24A002_NONCONTIGUOUS_EVENT_SEQUENCE)
    else match Normalize(rows[|rows| - 1].position)
      case None => Err(CB24O001_INVALID_LSN)
      case Some(commitLsn) =>
        Ok(Descriptor(tx, rows[0].txSequence, commitLsn, |rows|, IdsOf(rows), IdsOf(rows), SortedSet(TableNames(rows))))
  }

  /** The descriptors of the first `n` transactions. */
  function DescribeAll(events: seq<Arrival>, txs: seq<string>, n: nat): Result<seq<Descriptor>>
    requires n <= |txs| && forall tx :: tx in txs ==> tx in FirstSeen(events)
  {
    if n == 0 then Ok([])
    else
      var front := DescribeAll(events, txs, n - 1);
      if front.Err? then front
      else
        GroupMeans(events, txs[n - 1]);
        match Describe(Group(events, txs[n - 1]), txs[n - 1])
        case Err(code) => Err(code)
        case Ok(d) => Ok(front.value + [d])
  }

  function InOrder(events: seq<Arrival>): (r: seq<string>)
    ensures multiset(r) == multiset(FirstSeen(events)) && forall tx :: tx in r <==> tx in FirstSeen(events)
  {
    SortFacts(FirstSeen(events), tx => GroupKey(events, tx));
    SortBy(FirstSeen(events), tx => GroupKey(events, tx))
  }

  datatype Terms = Terms(gen: string, previous: string, terminal: string, history: string, predecessor: string)

  function GenerationFault(e: Arrival, gen: string): Option<Code>
  {
    if e.gen != gen then Some(CB24A001_FOREIGN_GENERATION) else None
  }

  /** `build_apply_manifest`; `digest` names an authority. */
  function Build(events: seq<Arrival>, terms: Terms, digest: Authority -> string): Result<Manifest>
  {
    match IntervalFault(events, terms.previous, terms.terminal)
    case Some(code) => Err(code)
    case None =>
      match Ordered(events)
      case Err(code) => Err(code)
      case Ok(sorted) =>
        match FirstError(sorted, e => GenerationFault(e, terms.gen))
        case Some(code) => Err(code)
        case None =>
          match DescribeAll(sorted, InOrder(sorted), |InOrder(sorted)|)
          case Err(code) => Err(code)
          case Ok(descriptors) =>
            match (Normalize(terms.previous), Normalize(terms.terminal))
            case (Some(previous), Some(terminal)) =>
              var a := Authority(terms.gen, previous, terminal, terms.history, terms.predecessor, descriptors);
              Ok(Manifest(a, digest(a)))
            case _ => Err(CB24O001_INVALID_LSN)
  }

  /** The checks of `assemble_transactions` on one event, in their order. */
  function ShapeFault(e: Arrival, gen: string, admitted: set<string>): Option<Code>
  {
    if e.gen != gen then Some(CB24A001_FOREIGN_GENERATION)
    else if e.operation !in {"insert", "update", "delete"} then Some(CB24A003_OPERATION)
    else if e.schema !in admitted then Some(CB24A004_STAGE5_POLICY_REQUIRED)
    else if e.operation == "insert" && (e.before != None || e.after == None) then Some(CB24A005_IMAGE_SHAPE)
    else if e.operation == "update" && (e.before == None || e.after == None) then Some(CB24A005_IMAGE_SHAPE)
    else if e.operation == "delete" && (e.before == None || e.after != None) then Some(CB24A005_IMAGE_SHAPE)
    else if e.operation == "update" && e.before.value.key != e.after.value.key
      then Some(CB24A004_STAGE5_POLICY_REQUIRED)
    else None
  }

  /** An arrival without images does not get here: its shape is refused. */
  function ToEvent(e: Arrival): Event
  {
    Event(e.id, e.table, e.key, e.position,
          match (e.before, e.after)
          case (None, Some(after)) => Insert(after)
          case (Some(before), Some(after)) => Update(before, after)
          case (Some(before), None) => Delete(before)
          case (None, None) => Delete(Row(e.key, map[])),
          e.ingestedAt)
  }

  function ToEvents(rows: seq<Arrival>): seq<Event>
  {
    seq(|rows|, i requires 0 <= i < |rows| => ToEvent(rows[i]))
  }

  function DescriptorMap(descriptors: seq<Descriptor>): map<string, Descriptor>
  {
    if descriptors == [] then map[]
    else
      var last := descriptors[|descriptors| - 1];
      DescriptorMap(descriptors[..|descriptors| - 1])[last.tx := last]
  }

  /** One transaction of `assemble_transactions`. */
  function AssembleOne(group: seq<Arrival>, tx: string, d: Descriptor, m: Manifest): Result<Assembly>
    requires group != []
  {
    match Ordered(group)
    case Err(code) => Err(code)
    case Ok(rows) =>
      SortFacts(group, OrderKey);
      if d.count != |rows| || d.ids != IdsOf(rows) || d.idSet != IdsOf(rows) then Err(CB24A008_INCOMPLETE_TRANSACTION)
      else match Normalize(rows[|rows| - 1].position)
        case None => Err(CB24O001_INVALID_LSN)
        case Some(commitLsn) =>
          var tables := SortedSet(TableNames(rows));
          if d.commitLsn != commitLsn then Err(CB24A009_COMMIT_LSN)
          else if d.tables != tables then Err(CB24A010_TABLE_SET)
          else
            Ok(Assembly(rows[0].txSequence, rows,
                        Plan(m.authority.gen, tx, TransactionInput(m.id, Projections(ToEvents(rows))),
                             m.authority.previous,
                             commitLsn, m.id, tables, ToEvents(rows))))
  }

  /** The plans of the first `n` transactions. */
  function AssembleAll(events: seq<Arrival>, txs: seq<string>, m: Manifest, n: nat): Result<seq<Assembly>>
    requires n <= |txs|
    requires forall tx :: tx in txs ==> tx in FirstSeen(events) && tx in DescriptorMap(m.authority.transactions)
  {
    if n == 0 then Ok([])
    else
      var front := AssembleAll(events, txs, m, n - 1);
      if front.Err? then front
      else
        GroupMeans(events, txs[n - 1]);
        match AssembleOne(Group(events, txs[n - 1]), txs[n - 1], DescriptorMap(m.authority.transactions)[txs[n - 1]], m)
        case Err(code) => Err(code)
        case Ok(a) => Ok(front.value + [a])
  }

  function AssemblyKey(a: Assembly): Key { TxKey(a.txSequence, a.plan.tx) }

  lemma {:induction false} ErrorFree(events: seq<Arrival>, check: Arrival -> Option<Code>)
    ensures FirstError(events, check) == None <==> forall e :: e in events ==> check(e) == None
    decreases |events|
  {
    if events != [] { ErrorFree(events[1..], check); }
  }

  function AssemblesAll(sorted: seq<Arrival>, m: Manifest): Result<seq<Assembly>>
    requires DescriptorMap(m.authority.transactions).Keys == Elements(FirstSeen(sorted))
  {
    assert forall tx :: tx in FirstSeen(sorted) ==> tx in Elements(FirstSeen(sorted));
    AssembleAll(sorted, FirstSeen(sorted), m, |FirstSeen(sorted)|)
  }

  /** `assemble_transactions`. */
  function Assemble(events: seq<Arrival>, m: Manifest, admitted: set<string>): Result<seq<Assembly>>
  {
    match IntervalFault(events, m.authority.previous, m.authority.terminal)
    case Some(code) => Err(code)
    case None =>
      match Ordered(events)
      case Err(code) => Err(code)
      case Ok(sorted) =>
        match FirstError(sorted, e => ShapeFault(e, m.authority.gen, admitted))
        case Some(code) => Err(code)
        case None =>
          if DescriptorMap(m.authority.transactions).Keys != Elements(FirstSeen(sorted))
            then Err(CB24A007_TRANSACTION_SET)
          else
            match AssemblesAll(sorted, m)
            case Err(code) => Err(code)
            case Ok(assemblies) => Ok(SortBy(assemblies, AssemblyKey))
  }

  method FindError(events: seq<Arrival>, check: Arrival -> Option<Code>) returns (fault: Option<Code>)
    ensures fault == FirstError(events, check)
  {
    var i := 0;
    while i < |events|
      invariant 0 <= i <= |events|
      invariant FirstError(events, check) == FirstError(events[i..], check)
    {
      assert events[i..][0] == events[i] && events[i..][1..] == events[i + 1..];
      fault := check(events[i]);
      if fault.Some? {
        return;
      }
      i := i + 1;
    }
    fault := None;
  }

  method AdmitInterval(events: seq<Arrival>, previous: string, terminal: string) returns (fault: Option<Code>)
    ensures fault == IntervalFault(events, previous, terminal)
  {
    var lower, upper := Parse(previous), Parse(terminal);
    if lower == None || upper == None {
      return Some(CB24O001_INVALID_LSN);
    }
    if upper.value <= lower.value {
      return Some(CB24O005_INTERVAL_REGRESSION);
    }
    fault := FindError(events, e => IntervalError(e, lower.value, upper.value));
  }

  /** Sort, then look for a sequence number used twice in a transaction. */
  method OrderedEvents(events: seq<Arrival>) returns (r: Result<seq<Arrival>>)
    ensures r == Ordered(events)
  {
    hide SortBy, OrderKey, KeyFault;
    var fault := FindError(events, KeyFault);
    if fault.Some? {
      return Err(fault.value);
    }
    var sorted := SortBy(events, OrderKey);
    var seen: set<(string, int)> := {};
    var i := 0;
    while i < |sorted|
      invariant 0 <= i <= |sorted| && DistinctSlots(sorted[..i])
      invariant seen == set e | e in sorted[..i] :: Slot(e)
    {
      assert sorted[..i + 1] == sorted[..i] + [sorted[i]];
      if Slot(sorted[i]) in seen {
        var j :| 0 <= j < i && Slot(sorted[..i][j]) == Slot(sorted[i]);
        assert Slot(sorted[j]) == Slot(sorted[i]);
        return Err(CB24O007_DUPLICATE_SEQUENCE);
      }
      seen := seen + {Slot(sorted[i])};
      i := i + 1;
    }
    assert sorted[..i] == sorted;
    r := Ok(sorted);
  }

  /** The `defaultdict` of events by transaction id; `order` is its key order. */
  method GroupEvents(events: seq<Arrival>) returns (order: seq<string>, groups: map<string, seq<Arrival>>)
    ensures order == FirstSeen(events) && groups.Keys == Elements(order)
    ensures forall tx :: tx in order ==> groups[tx] == Group(events, tx)
  {
    order, groups := [], map[];
    var i := 0;
    while i < |events|
      invariant 0 <= i <= |events|
      invariant order == FirstSeen(events[..i]) && groups.Keys == Elements(order)
      invariant forall tx :: tx in groups ==> groups[tx] == Group(events[..i], tx)
      invariant forall tx :: tx !in groups ==> Group(events[..i], tx) == []
    {
      var e := events[i];
      assert events[..i + 1][..i] == events[..i] && events[..i + 1][i] == e;
      if e.tx !in groups {
        order, groups := order + [e.tx], groups[e.tx := []];
      }
      groups := groups[e.tx := groups[e.tx] + [e]];
      i := i + 1;
    }
    assert events[..i] == events;
  }

  /** Describe the groups in order, stopping at the first that is not numbered 1..n. */
  method DescribeGroups(ghost sorted: seq<Arrival>, txs: seq<string>, groups: map<string, seq<Arrival>>)
    returns (r: Result<seq<Descriptor>>)
    requires forall tx :: tx in txs ==> tx in FirstSeen(sorted) && tx in groups && groups[tx] == Group(sorted, tx)
    ensures r == DescribeAll(sorted, txs, |txs|)
  {
    hide Describe, Group, FirstSeen;
    var descriptors := [];
    var i := 0;
    while i < |txs|
      invariant 0 <= i <= |txs|
      invariant DescribeAll(sorted, txs, i) == Ok(descriptors)
    {
      assert txs[i] in txs;
      GroupMeans(sorted, txs[i]);
      var d := Describe(groups[txs[i]], txs[i]);
      if d.Err? {
        DescribeFails(sorted, txs, i + 1);
        return Err(d.code);
      }
      descriptors := descriptors + [d.value];
      i := i + 1;
    }
    r := Ok(descriptors);
  }

  method BuildApplyManifest(events: seq<Arrival>, terms: Terms, digest: Authority -> string)
    returns (r: Result<Manifest>)
    ensures r == Build(events, terms, digest)
  {
    hide Normalize, Parse, Group, IntervalFault, DescribeAll, Ordered, FirstError, InOrder;
    var fault := AdmitInterval(events, terms.previous, terms.terminal);
    if fault.Some? {
      return Err(fault.value);
    }
    var ordered := OrderedEvents(events);
    if ordered.Err? {
      return Err(ordered.code);
    }
    var sorted := ordered.value;
    fault := FindError(sorted, e => GenerationFault(e, terms.gen));
    if fault.Some? {
      return Err(fault.value);
    }
    var order, groups := GroupEvents(sorted);
    var txs := InOrder(sorted);
    assert forall tx :: tx in txs ==> tx in order && tx in Elements(order);
    var described := DescribeGroups(sorted, txs, groups);
    if described.Err? {
      return Err(described.code);
    }
    var previous, terminal := Normalize(terms.previous), Normalize(terms.terminal);
    if previous == None || terminal == None {
      return Err(CB24O001_INVALID_LSN);
    }
    var a := Authority(terms.gen, previous.value, terminal.value, terms.history, terms.predecessor, described.value);
    r := Ok(Manifest(a, digest(a)));
  }

  lemma {:induction false} DescribeFails(events: seq<Arrival>, txs: seq<string>, n: nat)
    requires forall tx :: tx in txs ==> tx in FirstSeen(events)
    requires n <= |txs| && DescribeAll(events, txs, n).Err?
    ensures DescribeAll(events, txs, |txs|) == DescribeAll(events, txs, n)
    decreases |txs| - n
  {
    if n < |txs| { DescribeFails(events, txs, n + 1); }
  }

  /** Assemble the groups in the order of their first events. */
  method AssembleGroups(ghost sorted: seq<Arrival>, txs: seq<string>, groups: map<string, seq<Arrival>>,
                        byId: map<string, Descriptor>, m: Manifest)
    returns (r: Result<seq<Assembly>>)
    requires byId == DescriptorMap(m.authority.transactions)
    requires forall tx :: tx in txs ==>
               tx in FirstSeen(sorted) && tx in byId && tx in groups && groups[tx] == Group(sorted, tx)
    ensures r == AssembleAll(sorted, txs, m, |txs|)
  {
    hide AssembleOne, DescriptorMap, Group, FirstSeen;
    var assemblies := [];
    var i := 0;
    while i < |txs|
      invariant 0 <= i <= |txs|
      invariant AssembleAll(sorted, txs, m, i) == Ok(assemblies)
    {
      assert txs[i] in txs;
      GroupMeans(sorted, txs[i]);
      var a := AssembleOne(groups[txs[i]], txs[i], byId[txs[i]], m);
      if a.Err? {
        AssembleFails(sorted, txs, m, i + 1);
        return Err(a.code);
      }
      assemblies := assemblies + [a.value];
      i := i + 1;
    }
    r := Ok(assemblies);
  }

  method AssembleTransactions(events: seq<Arrival>, m: Manifest, admitted: set<string>)
    returns (r: Result<seq<Assembly>>)
    ensures r == Assemble(events, m, admitted)
  {
    var fault := AdmitInterval(events, m.authority.previous, m.authority.terminal);
    if fault.Some? {
      return Err(fault.value);
    }
    var ordered := OrderedEvents(events);
    if ordered.Err? {
      return Err(ordered.code);
    }
    var sorted := ordered.value;
    fault := FindError(sorted, e => ShapeFault(e, m.authority.gen, admitted));
    if fault.Some? {
      return Err(fault.value);
    }
    var txs, groups := GroupEvents(sorted);
    var byId := DescriptorMap(m.authority.transactions);
    if byId.Keys != groups.Keys {
      return Err(CB24A007_TRANSACTION_SET);
    }
    assert forall tx :: tx in txs ==> tx in Elements(txs);
    var assembled := AssembleGroups(sorted, txs, groups, byId, m);
    if assembled.Err? {
      return Err(assembled.code);
    }
    r := Ok(SortBy(assembled.value, AssemblyKey));
  }

  lemma {:induction false} AssembleFails(events: seq<Arrival>, txs: seq<string>, m: Manifest, n: nat)
    requires forall tx :: tx in txs ==> tx in FirstSeen(events) && tx in DescriptorMap(m.authority.transactions)
    requires n <= |txs| && AssembleAll(events, txs, m, n).Err?
    ensures AssembleAll(events, txs, m, |txs|) == AssembleAll(events, txs, m, n)
    decreases |txs| - n
  {
    hide AssembleOne, DescriptorMap, FirstSeen, Group;
    if n < |txs| { AssembleFails(events, txs, m, n + 1); }
  }
}
