/**
What assembly answers, read off its input: which events and which manifest are accepted,
what the manifest says of them, and the cause of every refusal.
*/
module AssemblerAnswers {
  import opened Common
  import opened Sorting
  import opened Events
  import opened Lsn
  import opened Assembler
  import opened AssemblerFacts

  /** Two positions that make an interval. */
  predicate Bounds(previous: string, terminal: string) { 0 <= Position(previous) < Position(terminal) }

  /** The event is a log position in the half-open interval. */
  predicate Inside(e: Arrival, previous: string, terminal: string)
  {
    e.kind == "postgres_lsn" && Position(previous) < Position(e.position) <= Position(terminal)
  }

  ghost predicate AllInside(events: seq<Arrival>, previous: string, terminal: string)
  {
    Bounds(previous, terminal) && forall e :: e in events ==> Inside(e, previous, terminal)
  }

  predicate InRange(e: Arrival) { 0 <= e.txSequence && 1 <= e.sequence }

  ghost predicate AllInRange(events: seq<Arrival>) { forall e :: e in events ==> InRange(e) }

  /** No transaction has two events of one number. */
  ghost predicate UniqueNumbers(events: seq<Arrival>)
  {
    forall i, j :: 0 <= i < j < |events| && events[i].tx == events[j].tx ==> events[i].sequence != events[j].sequence
  }

  /** The events can be put in order. */
  ghost predicate Orderable(events: seq<Arrival>, previous: string, terminal: string)
  {
    AllInside(events, previous, terminal) && AllInRange(events) && UniqueNumbers(events)
  }

  /** The images that go with the operation. */
  predicate ImagesFit(e: Arrival)
  {
    || (e.operation == "insert" && e.before.None? && e.after.Some?)
    || (e.operation == "update" && e.before.Some? && e.after.Some?)
    || (e.operation == "delete" && e.before.Some? && e.after.None?)
  }

  predicate KeepsKey(e: Arrival) { e.before.Some? && e.after.Some? ==> e.before.value.key == e.after.value.key }

  /** An event of the generation, under an admitted schema, with images that fit and one key. */
  predicate WellShaped(e: Arrival, gen: string, admitted: set<string>)
  {
    e.gen == gen && e.schema in admitted && ImagesFit(e) && KeepsKey(e)
  }

  /** Why an ill-shaped event is refused. */
  predicate ShapeCause(e: Arrival, gen: string, admitted: set<string>, code: Code)
  {
    var known := e.operation == "insert" || e.operation == "update" || e.operation == "delete";
    match code
    case CB24A001_FOREIGN_GENERATION => e.gen != gen
    case CB24A003_OPERATION => e.gen == gen && !known
    case CB24A005_IMAGE_SHAPE => e.gen == gen && known && e.schema in admitted && !ImagesFit(e)
    case CB24A004_STAGE5_POLICY_REQUIRED =>
      e.gen == gen && known && (e.schema !in admitted || (ImagesFit(e) && !KeepsKey(e)))
    case _ => false
  }

  lemma {:induction false} ShapeMeans(e: Arrival, gen: string, admitted: set<string>)
    ensures ShapeFault(e, gen, admitted) == None <==> WellShaped(e, gen, admitted)
    ensures ShapeFault(e, gen, admitted).Some? ==> ShapeCause(e, gen, admitted, ShapeFault(e, gen, admitted).value)
  {
  }

  /** By position, then transaction number, then event number. */
  predicate Precedes(x: Arrival, y: Arrival)
  {
    var p, q := Position(x.position), Position(y.position);
    p < q || (p == q && (x.txSequence < y.txSequence || (x.txSequence == y.txSequence && x.sequence < y.sequence)))
  }

  lemma OrderMeans(x: Arrival, y: Arrival)
    ensures Le(OrderKey(x), OrderKey(y)) ==> Precedes(x, y) || (!Precedes(y, x) && x.sequence == y.sequence)
    ensures Precedes(x, y) ==> Le(OrderKey(x), OrderKey(y)) && !Le(OrderKey(y), OrderKey(x))
  {
    var a, b := OrderKey(x), OrderKey(y);
    assert a[0] == Position(x.position) && a[1] == x.txSequence && a[2] == x.sequence;
    assert b[0] == Position(y.position) && b[1] == y.txSequence && b[2] == y.sequence;
    LeOpens(a, b);
    LeOpens(b, a);
  }

  lemma LeOpens(a: Key, b: Key)
    requires |a| >= 3 && |b| >= 3
    ensures Le(a, b) <==> a[0] < b[0] || (a[0] == b[0] && (a[1] < b[1] || (a[1] == b[1] &&
                          (a[2] < b[2] || (a[2] == b[2] && Le(a[3..], b[3..]))))))
  {
    assert a[1..][0] == a[1] && a[1..][1..] == a[2..] && a[2..][0] == a[2] && a[2..][1..] == a[3..];
    assert b[1..][0] == b[1] && b[1..][1..] == b[2..] && b[2..][0] == b[2] && b[2..][1..] == b[3..];
    assert Le(a[1..], b[1..]) <==> a[1] < b[1] || (a[1] == b[1] && Le(a[2..], b[2..]));
    assert Le(a[2..], b[2..]) <==> a[2] < b[2] || (a[2] == b[2] && Le(a[3..], b[3..]));
  }

  /** The transaction's events, in order. */
  ghost predicate Listed(events: seq<Arrival>, tx: string, rows: seq<Arrival>)
  {
    && (forall e :: e in rows <==> e in events && e.tx == tx)
    && (forall i, j :: 0 <= i < j < |rows| ==> Precedes(rows[i], rows[j]))
  }

  function PlaceKey(e: Arrival): Key { [Position(e.position), e.txSequence, e.sequence] }

  lemma {:induction false} ListedOnce(events: seq<Arrival>, tx: string, a: seq<Arrival>, b: seq<Arrival>)
    requires Listed(events, tx, a) && Listed(events, tx, b)
    ensures a == b
  {
    DistinctMultiset(a);
    DistinctMultiset(b);
    assert Elements(a) == Elements(b);
    forall x, y | Precedes(x, y) ensures Le(PlaceKey(x), PlaceKey(y)) && PlaceKey(x) != PlaceKey(y) {
      PlaceMeans(x, y);
    }
    SortedUnique(a, b, PlaceKey);
  }

  lemma PlaceMeans(x: Arrival, y: Arrival)
    requires Precedes(x, y)
    ensures Le(PlaceKey(x), PlaceKey(y)) && PlaceKey(x) != PlaceKey(y)
  {
    LeOpens(PlaceKey(x), PlaceKey(y));
  }

  /** The descriptor the manifest ends up with for a transaction. */
  ghost predicate DescribedBy(ds: seq<Descriptor>, tx: string, d: Descriptor)
  {
    exists i :: 0 <= i < |ds| && ds[i] == d && d.tx == tx && forall j :: i < j < |ds| ==> ds[j].tx != tx
  }

  lemma {:induction false} DescriptorMeans(ds: seq<Descriptor>, tx: string)
    ensures tx in DescriptorMap(ds) <==> exists d :: d in ds && d.tx == tx
    ensures forall d :: DescribedBy(ds, tx, d) <==> tx in DescriptorMap(ds) && DescriptorMap(ds)[tx] == d
  {
    if ds != [] {
      var n := |ds| - 1;
      DescriptorMeans(ds[..n], tx);
      assert ds == ds[..n] + [ds[n]];
      forall d
        ensures DescribedBy(ds, tx, d) <==> (if ds[n].tx == tx then d == ds[n] else DescribedBy(ds[..n], tx, d))
      {
        DescribedSplits(ds, tx, d);
      }
    }
  }

  lemma DescribedSplits(ds: seq<Descriptor>, tx: string, d: Descriptor)
    requires ds != []
    ensures var n := |ds| - 1;
      DescribedBy(ds, tx, d) <==> if ds[n].tx == tx then d == ds[n] else DescribedBy(ds[..n], tx, d)
  {
    var n := |ds| - 1;
    if ds[n].tx != tx && DescribedBy(ds[..n], tx, d) {
      var i :| 0 <= i < n && ds[..n][i] == d && d.tx == tx && forall j :: i < j < n ==> ds[..n][j].tx != tx;
      assert ds[i] == d && forall j :: i < j < n ==> ds[j].tx == ds[..n][j].tx;
    }
    if ds[n].tx != tx && DescribedBy(ds, tx, d) {
      var i :| 0 <= i < |ds| && ds[i] == d && d.tx == tx && forall j :: i < j < |ds| ==> ds[j].tx != tx;
      assert ds[..n][i] == d && forall j :: i < j < n ==> ds[..n][j] == ds[j];
    }
  }

  /** The descriptor's count and ids are those of the rows. */
  predicate CountsFit(d: Descriptor, rows: seq<Arrival>)
  {
    && d.count == |rows| == |d.ids| && d.idSet == d.ids
    && forall i :: 0 <= i < |rows| ==> d.ids[i] == rows[i].id
  }

  /** The descriptor's commit position is the normal form of the last row's. */
  predicate CommitFits(d: Descriptor, rows: seq<Arrival>)
  {
    rows != [] && Normalize(rows[|rows| - 1].position) == Some(d.commitLsn)
  }

  /** The descriptor lists the rows' tables, each once and in order. */
  ghost predicate TablesFit(d: Descriptor, rows: seq<Arrival>) { Lists(d.tables, set e | e in rows :: e.table) }

  /** The manifest's descriptor of the transaction answers its events. */
  ghost predicate Answered(events: seq<Arrival>, ds: seq<Descriptor>, tx: string)
  {
    exists d, rows ::
      && DescribedBy(ds, tx, d) && Listed(events, tx, rows)
      && CountsFit(d, rows) && CommitFits(d, rows) && TablesFit(d, rows)
  }

  /** The manifest describes just the transactions that arrived. */
  ghost predicate SameTransactions(events: seq<Arrival>, ds: seq<Descriptor>)
  {
    && (forall e :: e in events ==> exists d :: d in ds && d.tx == e.tx)
    && (forall d :: d in ds ==> exists e :: e in events && e.tx == d.tx)
  }

  ghost predicate AllWellShaped(events: seq<Arrival>, gen: string, admitted: set<string>)
  {
    forall e :: e in events ==> WellShaped(e, gen, admitted)
  }

  /** The events and the manifest that assembly accepts. */
  ghost predicate Acceptable(events: seq<Arrival>, m: Manifest, admitted: set<string>)
  {
    && Orderable(events, m.authority.previous, m.authority.terminal)
    && AllWellShaped(events, m.authority.gen, admitted)
    && SameTransactions(events, m.authority.transactions)
    && (forall e :: e in events ==> Answered(events, m.authority.transactions, e.tx))
  }

  /** The first event outside the interval. */
  ghost predicate FirstOutside(events: seq<Arrival>, previous: string, terminal: string, i: int)
  {
    && 0 <= i < |events| && !Inside(events[i], previous, terminal)
    && forall j :: 0 <= j < i ==> Inside(events[j], previous, terminal)
  }

  /** Why events cannot be put in order. */
  ghost predicate OrderCause(events: seq<Arrival>, previous: string, terminal: string, code: Code)
  {
    var lsn := "postgres_lsn";
    match code
    case CB24O001_INVALID_LSN =>
      || Position(previous) < 0 || Position(terminal) < 0
      || (Bounds(previous, terminal)
          && exists i ::
               FirstOutside(events, previous, terminal, i) && events[i].kind == lsn && Position(events[i].position) < 0)
    case CB24O005_INTERVAL_REGRESSION => 0 <= Position(terminal) <= Position(previous)
    case CB24O002_POSITION_KIND =>
      && Bounds(previous, terminal)
      && exists i :: FirstOutside(events, previous, terminal, i) && events[i].kind != lsn
    case CB24O006_EVENT_OUTSIDE_INTERVAL =>
      && Bounds(previous, terminal)
      && exists i ::
           FirstOutside(events, previous, terminal, i) && events[i].kind == lsn && Position(events[i].position) >= 0
    case CB24O004_SEQUENCE_RANGE => AllInside(events, previous, terminal) && !AllInRange(events)
    case CB24O007_DUPLICATE_SEQUENCE =>
      AllInside(events, previous, terminal) && AllInRange(events) && !UniqueNumbers(events)
    case _ => false
  }

  lemma {:induction false} FirstErrorMeans(events: seq<Arrival>, check: Arrival -> Option<Code>)
    requires FirstError(events, check).Some?
    ensures exists i :: 0 <= i < |events| && check(events[i]) == FirstError(events, check)
                        && forall j :: 0 <= j < i ==> check(events[j]) == None
    decreases |events|
  {
    if check(events[0]) == None {
      FirstErrorMeans(events[1..], check);
      var i :| 0 <= i < |events[1..]| && check(events[1..][i]) == FirstError(events[1..], check)
               && forall j :: 0 <= j < i ==> check(events[1..][j]) == None;
      assert forall j :: 0 <= j < i + 1 ==> events[j] == if j == 0 then events[0] else events[1..][j - 1];
      assert check(events[i + 1]) == FirstError(events, check);
    }
  }

  lemma {:induction false} IntervalMeans(events: seq<Arrival>, previous: string, terminal: string)
    ensures IntervalFault(events, previous, terminal) == None <==> AllInside(events, previous, terminal)
    ensures IntervalFault(events, previous, terminal).Some? ==>
              OrderCause(events, previous, terminal, IntervalFault(events, previous, terminal).value)
  {
    hide Parse, FirstError;
    if Bounds(previous, terminal) {
      var lower, upper := Parse(previous).value, Parse(terminal).value;
      var check := (e: Arrival) => IntervalError(e, lower, upper);
      ErrorFree(events, check);
      if FirstError(events, check).Some? {
        FirstErrorMeans(events, check);
        var i :| 0 <= i < |events| && check(events[i]) == FirstError(events, check)
                 && forall j :: 0 <= j < i ==> check(events[j]) == None;
        assert FirstOutside(events, previous, terminal, i);
      }
    }
  }

  lemma {:induction false} UniqueSorts(events: seq<Arrival>)
    ensures UniqueNumbers(events) <==> DistinctSlots(SortBy(events, OrderKey))
  {
    hide OrderKey, SortBy;
    var sorted := SortBy(events, OrderKey);
    SortKeepsImages(events, Slot, OrderKey);
    if Distinct(Mapped(events, Slot)) { DistinctPermutation(Mapped(events, Slot), Mapped(sorted, Slot)); }
    if Distinct(Mapped(sorted, Slot)) { DistinctPermutation(Mapped(sorted, Slot), Mapped(events, Slot)); }
    SlotsDistinct(events);
    SlotsDistinct(sorted);
  }

  lemma SlotsDistinct(events: seq<Arrival>)
    ensures Distinct(Mapped(events, Slot)) <==> DistinctSlots(events)
    ensures UniqueNumbers(events) <==> DistinctSlots(events)
  {
  }

  lemma {:induction false} OrderMeansOrderable(events: seq<Arrival>, previous: string, terminal: string)
    requires AllInside(events, previous, terminal)
    ensures Ordered(events).Ok? <==> Orderable(events, previous, terminal)
    ensures Ordered(events).Ok? ==> Ordered(events).value == SortBy(events, OrderKey)
    ensures Ordered(events).Err? ==> OrderCause(events, previous, terminal, Ordered(events).code)
  {
    hide SortBy, OrderKey, Words, DistinctSlots, UniqueNumbers;
    ErrorFree(events, KeyFault);
    UniqueSorts(events);
    if FirstError(events, KeyFault).Some? { FirstErrorMeans(events, KeyFault); }
  }

  /** The rows the code groups are the listed ones. */
  lemma {:induction false} GroupIsListed(events: seq<Arrival>, previous: string, terminal: string, tx: string)
    requires Orderable(events, previous, terminal)
    ensures var sorted := SortBy(events, OrderKey);
      && Listed(events, tx, Group(sorted, tx)) && Ordered(Group(sorted, tx)) == Ok(Group(sorted, tx))
      && (tx in FirstSeen(sorted) <==> exists e :: e in events && e.tx == tx)
      && (Group(sorted, tx) != [] <==> tx in FirstSeen(sorted))
  {
    hide OrderKey, SortBy, UniqueNumbers, Words, Group, FirstSeen;
    var sorted := SortBy(events, OrderKey);
    SortFacts(events, OrderKey);
    UniqueSorts(events);
    GroupKeepsOrder(sorted, tx);
    GroupMeans(sorted, tx);
    var g := Group(sorted, tx);
    forall i, j | 0 <= i < j < |g| ensures Precedes(g[i], g[j]) {
      assert g[i] in g && g[j] in g && Slot(g[i]) != Slot(g[j]);
      OrderMeans(g[i], g[j]);
    }
    ErrorFree(g, KeyFault);
    SortFacts(g, OrderKey);
    KeysDiffer(g);
    SortedUnique(g, SortBy(g, OrderKey), OrderKey);
    if tx in FirstSeen(sorted) { assert g[0] in g; }
    if e :| e in events && e.tx == tx { assert e in g; }
  }

  lemma KeysDiffer(g: seq<Arrival>)
    requires forall i, j :: 0 <= i < j < |g| ==> Precedes(g[i], g[j])
    ensures InjectiveOn(g, OrderKey)
  {
    hide OrderKey;
    forall x, y | x in g && y in g && OrderKey(x) == OrderKey(y) ensures x == y {
      var i :| 0 <= i < |g| && g[i] == x;
      var j :| 0 <= j < |g| && g[j] == y;
      OrderMeans(x, y);
      OrderMeans(y, x);
      assert !Precedes(x, y) && !Precedes(y, x) by { LeTotal(OrderKey(x), OrderKey(x)); }
      assert i == j;
    }
  }

  lemma {:induction false} ColumnsMean(rows: seq<Arrival>, d: Descriptor)
    ensures d.count == |rows| && d.ids == IdsOf(rows) && d.idSet == IdsOf(rows) <==> CountsFit(d, rows)
    ensures d.tables == SortedSet(TableNames(rows)) <==> TablesFit(d, rows)
  {
    hide SortedSet;
    SortedSetLists(TableNames(rows));
    assert Elements(TableNames(rows)) == set e | e in rows :: e.table by {
      forall i | 0 <= i < |rows| ensures TableNames(rows)[i] == rows[i].table {}
      forall e | e in rows ensures e.table in TableNames(rows) {
        var i :| 0 <= i < |rows| && rows[i] == e;
        assert TableNames(rows)[i] == e.table;
      }
    }
    if TablesFit(d, rows) { ListsUnique(d.tables, SortedSet(TableNames(rows)), Elements(TableNames(rows))); }
  }

  /** A transaction that its descriptor fails, and in what. */
  ghost predicate Failing(events: seq<Arrival>, ds: seq<Descriptor>, tx: string, code: Code)
  {
    exists d, rows :: DescribedBy(ds, tx, d) && Listed(events, tx, rows) && FailsIn(d, rows, code)
  }

  ghost predicate FailsIn(d: Descriptor, rows: seq<Arrival>, code: Code)
  {
    match code
    case CB24A008_INCOMPLETE_TRANSACTION => !CountsFit(d, rows)
    case CB24A009_COMMIT_LSN => CountsFit(d, rows) && !CommitFits(d, rows)
    case CB24A010_TABLE_SET => CountsFit(d, rows) && CommitFits(d, rows) && !TablesFit(d, rows)
    case _ => false
  }

  lemma {:induction false} OneMeans(events: seq<Arrival>, m: Manifest, tx: string, d: Descriptor, rows: seq<Arrival>)
    requires Orderable(events, m.authority.previous, m.authority.terminal) && rows != []
    requires Listed(events, tx, rows) && Ordered(rows) == Ok(rows)
    ensures AssembleOne(rows, tx, d, m).Ok? <==> CountsFit(d, rows) && CommitFits(d, rows) && TablesFit(d, rows)
    ensures AssembleOne(rows, tx, d, m).Err? ==> FailsIn(d, rows, AssembleOne(rows, tx, d, m).code)
  {
    hide Ordered, Words, ToEvents, IdsOf, TableNames, SortedSet, CountsFit, TablesFit;
    hide UniqueNumbers, AllInRange, Position;
    hide SortBy, OrderKey, Projections;
    ColumnsMean(rows, d);
    assert rows[|rows| - 1] in rows;
    PositionMeans(rows[|rows| - 1].position);
    NormalizeMeaning(rows[|rows| - 1].position);
  }

  lemma PositionMeans(s: string)
    ensures Position(s) >= -1 && (Position(s) >= 0 <==> Parse(s).Some?)
  {
  }

  lemma {:induction false} EachMeans(events: seq<Arrival>, m: Manifest, tx: string)
    requires Orderable(events, m.authority.previous, m.authority.terminal)
    requires tx in DescriptorMap(m.authority.transactions) && Group(SortBy(events, OrderKey), tx) != []
    ensures var rows, d := Group(SortBy(events, OrderKey), tx), DescriptorMap(m.authority.transactions)[tx];
      && (AssembleOne(rows, tx, d, m).Ok? <==> Answered(events, m.authority.transactions, tx))
      && (AssembleOne(rows, tx, d, m).Err? ==>
            Failing(events, m.authority.transactions, tx, AssembleOne(rows, tx, d, m).code))
  {
    hide Orderable, Listed, SortBy, OrderKey, Group, DescriptorMap, DescribedBy, AssembleOne, CountsFit, CommitFits;
    hide TablesFit, FailsIn, Ordered;
    var ds := m.authority.transactions;
    var rows, d := Group(SortBy(events, OrderKey), tx), DescriptorMap(ds)[tx];
    GroupIsListed(events, m.authority.previous, m.authority.terminal, tx);
    DescriptorMeans(ds, tx);
    OneMeans(events, m, tx, d, rows);
    forall d', rows' | DescribedBy(ds, tx, d') && Listed(events, tx, rows') ensures d' == d && rows' == rows {
      ListedOnce(events, tx, rows, rows');
    }
  }

  lemma {:induction false} AllMean(events: seq<Arrival>, m: Manifest, txs: seq<string>, n: nat)
    requires Orderable(events, m.authority.previous, m.authority.terminal) && n <= |txs|
    requires forall tx :: tx in txs ==>
      tx in FirstSeen(SortBy(events, OrderKey)) && tx in DescriptorMap(m.authority.transactions)
    ensures var r := AssembleAll(SortBy(events, OrderKey), txs, m, n);
      && (r.Ok? <==> forall tx :: tx in txs[..n] ==> Answered(events, m.authority.transactions, tx))
      && (r.Err? ==> exists tx :: tx in txs[..n] && Failing(events, m.authority.transactions, tx, r.code))
  {
    hide Orderable, SortBy, OrderKey, Group, DescriptorMap, AssembleOne, Answered, Failing, FirstSeen;
    if n > 0 {
      var tx := txs[n - 1];
      assert txs[..n] == txs[..n - 1] + [tx];
      AllMean(events, m, txs, n - 1);
      GroupMeans(SortBy(events, OrderKey), tx);
      EachMeans(events, m, tx);
    }
  }

  /** Why events are not assembled against a manifest. */
  ghost predicate AssemblyCause(events: seq<Arrival>, m: Manifest, admitted: set<string>, code: Code)
  {
    var a := m.authority;
    match code
    case CB24A001_FOREIGN_GENERATION => FirstIllShaped(events, m, admitted, code)
    case CB24A003_OPERATION => FirstIllShaped(events, m, admitted, code)
    case CB24A004_STAGE5_POLICY_REQUIRED => FirstIllShaped(events, m, admitted, code)
    case CB24A005_IMAGE_SHAPE => FirstIllShaped(events, m, admitted, code)
    case CB24A007_TRANSACTION_SET =>
      && Orderable(events, a.previous, a.terminal) && AllWellShaped(events, a.gen, admitted)
      && !SameTransactions(events, a.transactions)
    case CB24A008_INCOMPLETE_TRANSACTION => SomeFails(events, m, admitted, code)
    case CB24A009_COMMIT_LSN => SomeFails(events, m, admitted, code)
    case CB24A010_TABLE_SET => SomeFails(events, m, admitted, code)
    case CB24A002_NONCONTIGUOUS_EVENT_SEQUENCE => false
    case _ => OrderCause(events, a.previous, a.terminal, code)
  }

  /** An event is ill-shaped for this reason, and none before it is ill-shaped. */
  ghost predicate FirstIllShaped(events: seq<Arrival>, m: Manifest, admitted: set<string>, code: Code)
  {
    && Orderable(events, m.authority.previous, m.authority.terminal)
    && exists e :: e in events && ShapeCause(e, m.authority.gen, admitted, code)
         && forall x :: x in events && Precedes(x, e) ==> WellShaped(x, m.authority.gen, admitted)
  }

  /** All events are in place, but a descriptor fails its transaction in this. */
  ghost predicate SomeFails(events: seq<Arrival>, m: Manifest, admitted: set<string>, code: Code)
  {
    && Orderable(events, m.authority.previous, m.authority.terminal)
    && AllWellShaped(events, m.authority.gen, admitted) && SameTransactions(events, m.authority.transactions)
    && exists e :: e in events && Failing(events, m.authority.transactions, e.tx, code)
  }

  lemma {:induction false} ShapesMean(events: seq<Arrival>, m: Manifest, admitted: set<string>)
    requires Orderable(events, m.authority.previous, m.authority.terminal)
    ensures var r := FirstError(SortBy(events, OrderKey), e => ShapeFault(e, m.authority.gen, admitted));
      && (r == None <==> AllWellShaped(events, m.authority.gen, admitted))
      && (r.Some? ==> FirstIllShaped(events, m, admitted, r.value) && r.value in SHAPES)
  {
    hide Orderable, SortBy, OrderKey, ShapeFault, WellShaped, ShapeCause, Precedes;
    var sorted, check := SortBy(events, OrderKey), (e: Arrival) => ShapeFault(e, m.authority.gen, admitted);
    SortFacts(events, OrderKey);
    ErrorFree(sorted, check);
    forall e: Arrival ensures check(e) == None <==> WellShaped(e, m.authority.gen, admitted)
      ensures check(e).Some? ==> ShapeCause(e, m.authority.gen, admitted, check(e).value)
    {
      ShapeMeans(e, m.authority.gen, admitted);
    }
    ShapesOnly(m.authority.gen, admitted);
    if FirstError(sorted, check).Some? {
      FirstErrorMeans(sorted, check);
      var i :| 0 <= i < |sorted| && check(sorted[i]) == FirstError(sorted, check)
               && forall j :: 0 <= j < i ==> check(sorted[j]) == None;
      forall x | x in events && Precedes(x, sorted[i]) ensures WellShaped(x, m.authority.gen, admitted) {
        var k :| 0 <= k < |sorted| && sorted[k] == x;
        OrderMeans(x, sorted[i]);
        assert k != i by { LeTotal(OrderKey(x), OrderKey(x)); }
        assert k < i;
      }
    }
  }

  lemma {:induction false} TransactionsMean(events: seq<Arrival>, m: Manifest)
    requires Orderable(events, m.authority.previous, m.authority.terminal)
    ensures DescriptorMap(m.authority.transactions).Keys == Elements(FirstSeen(SortBy(events, OrderKey)))
            <==> SameTransactions(events, m.authority.transactions)
  {
    hide Orderable, SortBy, OrderKey, DescriptorMap, FirstSeen, Listed, Group, Ordered, DescribedBy;
    var ds, seen := m.authority.transactions, FirstSeen(SortBy(events, OrderKey));
    forall tx
      ensures tx in DescriptorMap(ds) <==> exists d :: d in ds && d.tx == tx
      ensures tx in Elements(seen) <==> exists e :: e in events && e.tx == tx
    {
      DescriptorMeans(ds, tx);
      GroupIsListed(events, m.authority.previous, m.authority.terminal, tx);
    }
    if DescriptorMap(ds).Keys == Elements(seen) {
      forall e | e in events ensures exists d :: d in ds && d.tx == e.tx { assert e.tx in Elements(seen); }
      forall d | d in ds ensures exists e :: e in events && e.tx == d.tx { assert d.tx in DescriptorMap(ds); }
    }
  }

  lemma {:induction false} AllAnswered(events: seq<Arrival>, m: Manifest)
    requires Orderable(events, m.authority.previous, m.authority.terminal)
    requires DescriptorMap(m.authority.transactions).Keys == Elements(FirstSeen(SortBy(events, OrderKey)))
    ensures var r := AssemblesAll(SortBy(events, OrderKey), m);
      && (r.Ok? <==> forall e :: e in events ==> Answered(events, m.authority.transactions, e.tx))
      && (r.Err? ==> exists e :: e in events && Failing(events, m.authority.transactions, e.tx, r.code))
      && (r.Err? ==> r.code in FAILURES)
  {
    hide Orderable, SortBy, OrderKey, DescriptorMap, FirstSeen, Listed, Group, Ordered, Answered, Failing, AssembleAll;
    var txs := FirstSeen(SortBy(events, OrderKey));
    assert forall tx :: tx in txs <==> tx in Elements(txs);
    assert txs[..|txs|] == txs;
    AllMean(events, m, txs, |txs|);
    forall tx ensures tx in txs <==> exists e :: e in events && e.tx == tx {
      GroupIsListed(events, m.authority.previous, m.authority.terminal, tx);
    }
    FailuresOnly(events, m.authority.transactions);
  }

  const SHAPES := {CB24A001_FOREIGN_GENERATION, CB24A003_OPERATION, CB24A004_STAGE5_POLICY_REQUIRED,
                   CB24A005_IMAGE_SHAPE}

  lemma ShapesOnly(gen: string, admitted: set<string>)
    ensures forall e, code :: ShapeCause(e, gen, admitted, code) ==> code in SHAPES
  {
  }

  lemma OrdersOnly(events: seq<Arrival>, previous: string, terminal: string)
    ensures forall code :: OrderCause(events, previous, terminal, code) ==>
              code !in SHAPES && code !in FAILURES && !code.CB24A007_TRANSACTION_SET?
              && !code.CB24A002_NONCONTIGUOUS_EVENT_SEQUENCE?
  {
    hide Bounds, AllInside, AllInRange, UniqueNumbers, FirstOutside;
  }

  const FAILURES := {CB24A008_INCOMPLETE_TRANSACTION, CB24A009_COMMIT_LSN, CB24A010_TABLE_SET}

  lemma FailuresOnly(events: seq<Arrival>, ds: seq<Descriptor>)
    ensures forall tx, code :: Failing(events, ds, tx, code) ==> code in FAILURES
  {
    hide DescribedBy, Listed, CountsFit, CommitFits, TablesFit;
  }

  /**
  Assembly succeeds exactly on events that can be ordered inside the manifest's interval,
  are all well shaped, and are, transaction for transaction, what the descriptors say;
  every refusal has the cause its code names.
  */
  lemma {:induction false} AssemblyAnswer(events: seq<Arrival>, m: Manifest, admitted: set<string>)
    ensures var r := Assemble(events, m, admitted);
      && (r.Ok? <==> Acceptable(events, m, admitted))
      && (r.Err? ==> AssemblyCause(events, m, admitted, r.code))
  {
    hide IntervalFault, Ordered, Orderable, AllInside, OrderCause, AllWellShaped, FirstIllShaped, ShapeFault, Answered;
    hide SameTransactions, DescriptorMap, FirstSeen, AssemblesAll, Failing, SortBy, OrderKey;
    var previous, terminal := m.authority.previous, m.authority.terminal;
    OrderingAnswer(events, previous, terminal);
    OrdersOnly(events, previous, terminal);
    if Orderable(events, previous, terminal) {
      ShapesMean(events, m, admitted);
      TransactionsMean(events, m);
      if DescriptorMap(m.authority.transactions).Keys == Elements(FirstSeen(SortBy(events, OrderKey))) {
        AllAnswered(events, m);
      }
    }
  }

  lemma {:induction false} OrderingAnswer(events: seq<Arrival>, previous: string, terminal: string)
    ensures IntervalFault(events, previous, terminal).Some? ==>
              !Orderable(events, previous, terminal)
              && OrderCause(events, previous, terminal, IntervalFault(events, previous, terminal).value)
    ensures IntervalFault(events, previous, terminal) == None && Ordered(events).Err? ==>
              !Orderable(events, previous, terminal) && OrderCause(events, previous, terminal, Ordered(events).code)
    ensures IntervalFault(events, previous, terminal) == None && Ordered(events).Ok? ==>
              Orderable(events, previous, terminal) && Ordered(events).value == SortBy(events, OrderKey)
  {
    hide IntervalFault, Ordered, OrderCause, SortBy, OrderKey;
    IntervalMeans(events, previous, terminal);
    if AllInside(events, previous, terminal) { OrderMeansOrderable(events, previous, terminal); }
  }

  /** The transaction's events are numbered from one in their order. */
  ghost predicate NumberedFromOne(events: seq<Arrival>, tx: string)
  {
    exists rows: seq<Arrival> :: Listed(events, tx, rows) && forall i :: 0 <= i < |rows| ==> rows[i].sequence == i + 1
  }

  /** The events that a manifest can be built of. */
  ghost predicate Buildable(events: seq<Arrival>, terms: Terms)
  {
    && Orderable(events, terms.previous, terms.terminal) && (forall e :: e in events ==> e.gen == terms.gen)
    && (forall e :: e in events ==> NumberedFromOne(events, e.tx))
  }

  /** The descriptor says what the transaction's events are. */
  ghost predicate Says(events: seq<Arrival>, d: Descriptor)
  {
    exists rows: seq<Arrival> ::
      && Listed(events, d.tx, rows) && CountsFit(d, rows) && CommitFits(d, rows) && TablesFit(d, rows)
      && d.txSequence == rows[0].txSequence
  }

  /** By transaction number, then by name. */
  predicate ComesBefore(x: Descriptor, y: Descriptor)
  {
    || x.txSequence < y.txSequence
    || (x.txSequence == y.txSequence && x.tx != y.tx && Le(Chars(x.tx), Chars(y.tx)))
  }

  /** All of the transactions, in order, each as its events are. */
  ghost predicate Descriptions(events: seq<Arrival>, ds: seq<Descriptor>)
  {
    && SameTransactions(events, ds) && (forall d :: d in ds ==> Says(events, d))
    && (forall i, j :: 0 <= i < j < |ds| ==> ComesBefore(ds[i], ds[j]))
  }

  /** What a manifest built of the events says. */
  ghost predicate Describing(events: seq<Arrival>, terms: Terms, a: Authority)
  {
    && a.gen == terms.gen && a.history == terms.history && a.predecessor == terms.predecessor
    && Normalize(terms.previous) == Some(a.previous) && Normalize(terms.terminal) == Some(a.terminal)
    && Descriptions(events, a.transactions)
  }

  /** Why no manifest is built. */
  ghost predicate BuildCause(events: seq<Arrival>, terms: Terms, code: Code)
  {
    match code
    case CB24A001_FOREIGN_GENERATION =>
      Orderable(events, terms.previous, terms.terminal) && exists e :: e in events && e.gen != terms.gen
    case CB24A002_NONCONTIGUOUS_EVENT_SEQUENCE =>
      && Orderable(events, terms.previous, terms.terminal) && (forall e :: e in events ==> e.gen == terms.gen)
      && exists e :: e in events && !NumberedFromOne(events, e.tx)
    case _ => OrderCause(events, terms.previous, terms.terminal, code)
  }

  lemma {:induction false} DescribeMeans(events: seq<Arrival>, terms: Terms, tx: string)
    requires Orderable(events, terms.previous, terms.terminal)
    requires Group(SortBy(events, OrderKey), tx) != []
    ensures var r := Describe(Group(SortBy(events, OrderKey), tx), tx);
      && (r.Ok? <==> NumberedFromOne(events, tx))
      && (r.Ok? ==> Says(events, r.value) && r.value.tx == tx
                    && r.value.txSequence == GroupKey(SortBy(events, OrderKey), tx)[0])
      && (r.Err? ==> r.code == CB24A002_NONCONTIGUOUS_EVENT_SEQUENCE)
  {
    hide SortBy, OrderKey, Group, Words, CountsFit, TablesFit, IdsOf, TableNames, SortedSet, Listed, Position, Ordered;
    hide UniqueNumbers, AllInRange, Orderable, NumberedFromOne;
    var rows := Group(SortBy(events, OrderKey), tx);
    GroupIsListed(events, terms.previous, terms.terminal, tx);
    ListedParses(events, terms, tx, rows);
    NumberedIs(events, tx, rows);
    if Describe(rows, tx).Ok? { ColumnsMean(rows, Describe(rows, tx).value); }
  }

  lemma NumberedIs(events: seq<Arrival>, tx: string, rows: seq<Arrival>)
    requires Listed(events, tx, rows)
    ensures NumberedFromOne(events, tx) <==> Numbered(rows)
  {
    hide Listed;
    forall r | Listed(events, tx, r) ensures r == rows { ListedOnce(events, tx, r, rows); }
  }

  lemma ListedParses(events: seq<Arrival>, terms: Terms, tx: string, rows: seq<Arrival>)
    requires Orderable(events, terms.previous, terms.terminal) && Listed(events, tx, rows) && rows != []
    ensures Normalize(rows[|rows| - 1].position).Some?
  {
    hide Words, UniqueNumbers;
    assert rows[|rows| - 1] in rows;
    assert Position(rows[|rows| - 1].position) >= 0;
    NormalizeMeaning(rows[|rows| - 1].position);
  }

  lemma {:induction false} AllDescribe(events: seq<Arrival>, terms: Terms, txs: seq<string>, n: nat)
    requires Orderable(events, terms.previous, terms.terminal) && n <= |txs|
    requires forall tx :: tx in txs ==> tx in FirstSeen(SortBy(events, OrderKey))
    ensures var r := DescribeAll(SortBy(events, OrderKey), txs, n);
      && (r.Ok? <==> forall tx :: tx in txs[..n] ==> NumberedFromOne(events, tx))
      && (r.Err? ==> r.code == CB24A002_NONCONTIGUOUS_EVENT_SEQUENCE)
      && (r.Ok? ==> |r.value| == n && forall i :: 0 <= i < n ==>
            Says(events, r.value[i]) && r.value[i].tx == txs[i]
            && r.value[i].txSequence == GroupKey(SortBy(events, OrderKey), txs[i])[0])
  {
    hide Orderable, SortBy, OrderKey, Group, Describe, NumberedFromOne, Says, FirstSeen, GroupKey;
    if n > 0 {
      var tx := txs[n - 1];
      assert txs[..n] == txs[..n - 1] + [tx];
      AllDescribe(events, terms, txs, n - 1);
      GroupMeans(SortBy(events, OrderKey), tx);
      DescribeMeans(events, terms, tx);
    }
  }

  lemma {:induction false} GroupKeyOrders(sorted: seq<Arrival>, x: string, y: string)
    requires Le(GroupKey(sorted, x), GroupKey(sorted, y)) && x != y
    ensures var p, q := GroupKey(sorted, x)[0], GroupKey(sorted, y)[0]; p < q || (p == q && Le(Chars(x), Chars(y)))
  {
    hide Group;
    assert GroupKey(sorted, x)[1..] == Chars(x) && GroupKey(sorted, y)[1..] == Chars(y);
  }

  lemma {:induction false} DescriptorsMean(events: seq<Arrival>, terms: Terms)
    requires Orderable(events, terms.previous, terms.terminal)
    ensures var sorted := SortBy(events, OrderKey);
      var r := DescribeAll(sorted, InOrder(sorted), |InOrder(sorted)|);
      && (r.Ok? <==> forall e :: e in events ==> NumberedFromOne(events, e.tx))
      && (r.Err? ==> r.code == CB24A002_NONCONTIGUOUS_EVENT_SEQUENCE)
      && (r.Ok? ==> Descriptions(events, r.value))
  {
    hide Orderable, SortBy, OrderKey, Describe, DescribeAll, NumberedFromOne, Says, FirstSeen;
    hide GroupKey, InOrder, Listed;
    hide Descriptions;
    var sorted := SortBy(events, OrderKey);
    var txs := InOrder(sorted);
    assert txs[..|txs|] == txs;
    AllDescribe(events, terms, txs, |txs|);
    NamesAre(events, terms);
    EachNumbered(events, txs);
    var r := DescribeAll(sorted, txs, |txs|);
    if r.Ok? {
      DescriptionsFollow(events, sorted, txs, r.value);
    }
  }

  lemma DescriptionsFollow(events: seq<Arrival>, sorted: seq<Arrival>, txs: seq<string>, ds: seq<Descriptor>)
    requires txs == InOrder(sorted) && |ds| == |txs|
    requires forall tx :: tx in txs <==> exists e :: e in events && e.tx == tx
    requires forall i :: 0 <= i < |ds| ==>
      Says(events, ds[i]) && ds[i].tx == txs[i] && ds[i].txSequence == GroupKey(sorted, txs[i])[0]
    ensures Descriptions(events, ds)
  {
    hide Says, GroupKey, InOrder, SameTransactions, ComesBefore;
    InOrderIsSorted(sorted);
    InOrderCompares(sorted, txs, ds);
    NamesMatch(events, txs, ds);
  }

  lemma EachNumbered(events: seq<Arrival>, txs: seq<string>)
    requires forall tx :: tx in txs <==> exists e :: e in events && e.tx == tx
    ensures (forall tx :: tx in txs ==> NumberedFromOne(events, tx)) <==>
            (forall e :: e in events ==> NumberedFromOne(events, e.tx))
  {
    hide NumberedFromOne;
  }

  lemma NamesAre(events: seq<Arrival>, terms: Terms)
    requires Orderable(events, terms.previous, terms.terminal)
    ensures forall tx :: tx in InOrder(SortBy(events, OrderKey)) <==> exists e :: e in events && e.tx == tx
  {
    hide Orderable, SortBy, OrderKey, Group, FirstSeen, GroupKey, Listed, Ordered;
    forall tx ensures tx in FirstSeen(SortBy(events, OrderKey)) <==> exists e :: e in events && e.tx == tx {
      GroupIsListed(events, terms.previous, terms.terminal, tx);
    }
  }

  lemma InOrderCompares(sorted: seq<Arrival>, txs: seq<string>, ds: seq<Descriptor>)
    requires |ds| == |txs|
    requires forall i, j :: 0 <= i < j < |txs| ==>
      Le(GroupKey(sorted, txs[i]), GroupKey(sorted, txs[j])) && txs[i] != txs[j]
    requires forall i :: 0 <= i < |ds| ==> ds[i].tx == txs[i] && ds[i].txSequence == GroupKey(sorted, txs[i])[0]
    ensures forall i, j :: 0 <= i < j < |ds| ==> ComesBefore(ds[i], ds[j])
  {
    hide GroupKey, Le;
    forall i, j | 0 <= i < j < |ds| ensures ComesBefore(ds[i], ds[j]) { GroupKeyOrders(sorted, txs[i], txs[j]); }
  }

  lemma NamesMatch(events: seq<Arrival>, txs: seq<string>, ds: seq<Descriptor>)
    requires |ds| == |txs| && forall i :: 0 <= i < |ds| ==> ds[i].tx == txs[i]
    requires forall tx :: tx in txs <==> exists e :: e in events && e.tx == tx
    ensures SameTransactions(events, ds)
  {
    forall e | e in events ensures exists d :: d in ds && d.tx == e.tx {
      assert e.tx in txs;
      var i :| 0 <= i < |txs| && txs[i] == e.tx;
      assert ds[i] in ds;
    }
    forall d | d in ds ensures exists e :: e in events && e.tx == d.tx {
      var i :| 0 <= i < |ds| && ds[i] == d;
      assert txs[i] in txs;
    }
  }

  lemma InOrderIsSorted(sorted: seq<Arrival>)
    ensures var txs := InOrder(sorted);
      forall i, j :: 0 <= i < j < |txs| ==> Le(GroupKey(sorted, txs[i]), GroupKey(sorted, txs[j])) && txs[i] != txs[j]
  {
    hide GroupKey, FirstSeen;
    SortFacts(FirstSeen(sorted), tx => GroupKey(sorted, tx));
    DistinctPermutation(FirstSeen(sorted), InOrder(sorted));
  }

  /**
  A manifest is built exactly of events that can be ordered inside the interval, belong
  to the generation and are numbered from one in every transaction; it says what they
  are, transaction by transaction; and every refusal has the cause its code names.
  */
  lemma {:induction false} BuildAnswer(events: seq<Arrival>, terms: Terms, digest: Authority -> string)
    ensures var r := Build(events, terms, digest);
      && (r.Ok? <==> Buildable(events, terms))
      && (r.Ok? ==> Describing(events, terms, r.value.authority) && r.value.id == digest(r.value.authority))
      && (r.Err? ==> BuildCause(events, terms, r.code))
  {
    hide IntervalFault, Ordered, Orderable, OrderCause, NumberedFromOne, SortBy, OrderKey, DescribeAll, InOrder;
    hide Descriptions, Words;
    OrderingAnswer(events, terms.previous, terms.terminal);
    OrdersOnly(events, terms.previous, terms.terminal);
    if Orderable(events, terms.previous, terms.terminal) {
      SortFacts(events, OrderKey);
      GenerationsMean(events, terms);
      DescriptorsMean(events, terms);
      BoundsParse(events, terms.previous, terms.terminal);
    }
  }

  lemma BoundsParse(events: seq<Arrival>, previous: string, terminal: string)
    requires Orderable(events, previous, terminal)
    ensures Normalize(previous).Some? && Normalize(terminal).Some?
  {
    hide Words, AllInRange, UniqueNumbers;
    NormalizeMeaning(previous);
    NormalizeMeaning(terminal);
  }

  lemma GenerationsMean(events: seq<Arrival>, terms: Terms)
    ensures var r := FirstError(SortBy(events, OrderKey), e => GenerationFault(e, terms.gen));
      && (r == None <==> forall e :: e in events ==> e.gen == terms.gen)
      && (r.Some? ==> r.value == CB24A001_FOREIGN_GENERATION)
  {
    hide SortBy, OrderKey;
    SortFacts(events, OrderKey);
    var check := (e: Arrival) => GenerationFault(e, terms.gen);
    ErrorFree(SortBy(events, OrderKey), check);
    if FirstError(SortBy(events, OrderKey), check).Some? { FirstErrorMeans(SortBy(events, OrderKey), check); }
  }
}
