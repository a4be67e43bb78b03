/**
What assembly guarantees: the plans partition the events and answer the manifest, and
a manifest built from some events assembles every arrival order of them alike.
*/
module AssemblerFacts {
  import opened Common
  import opened Sorting
  import opened Events
  import opened Lsn
  import opened Assembler

  /** An event id names one event. */
  ghost predicate DistinctIds(events: seq<Arrival>)
  {
    forall x, y :: x in events && y in events && x.id == y.id ==> x == y
  }

  /** `a` is what the transaction's events and descriptor give. */
  ghost predicate AssembledFrom(events: seq<Arrival>, tx: string, m: Manifest, a: Assembly)
  {
    && tx in DescriptorMap(m.authority.transactions) && Group(events, tx) != []
    && AssembleOne(Group(events, tx), tx, DescriptorMap(m.authority.transactions)[tx], m) == Ok(a)
  }

  ghost predicate DescribedFrom(events: seq<Arrival>, tx: string, d: Descriptor)
  {
    Group(events, tx) != [] && Describe(Group(events, tx), tx) == Ok(d)
  }

  /** The plan answers the descriptor, event for event. */
  ghost predicate Answers(a: Assembly, d: Descriptor, m: Manifest)
  {
    && IdsOf(a.rows) == d.ids && |a.rows| == d.count && a.rows != []
    && (forall e :: e in a.rows ==> e.tx == a.plan.tx)
    && a.txSequence == a.rows[0].txSequence
    && Normalize(a.rows[|a.rows| - 1].position) == Some(d.commitLsn)
    && Assembled(a.plan)
    && a.plan == Plan(m.authority.gen, a.plan.tx, TransactionInput(m.id, Projections(ToEvents(a.rows))),
                      m.authority.previous,
                      d.commitLsn, m.id, d.tables, ToEvents(a.rows))
  }

  function Rows(assemblies: seq<Assembly>): seq<Arrival>
  {
    if assemblies == [] then [] else Rows(assemblies[..|assemblies| - 1]) + assemblies[|assemblies| - 1].rows
  }

  lemma PlanIsAssembled(plan: Plan, rows: seq<Arrival>)
    requires plan.events == ToEvents(rows) && plan.digest == TransactionInput(plan.manifest, Projections(plan.events))
    requires plan.tables == SortedSet(TableNames(rows))
    ensures Assembled(plan)
  {
    SortedSetLists(TableNames(rows));
    TablesAgree(rows);
  }

  /** What assembling one transaction yields, field by field. */
  lemma OneOpens(group: seq<Arrival>, tx: string, d: Descriptor, m: Manifest, a: Assembly)
    requires group != [] && AssembleOne(group, tx, d, m) == Ok(a)
    ensures a.rows == SortBy(group, OrderKey) && a.rows != []
    ensures IdsOf(a.rows) == d.ids && |a.rows| == d.count && a.txSequence == a.rows[0].txSequence
    ensures Normalize(a.rows[|a.rows| - 1].position) == Some(d.commitLsn) && SortedSet(TableNames(a.rows)) == d.tables
    ensures a.plan == Plan(m.authority.gen, tx, TransactionInput(m.id, Projections(ToEvents(a.rows))),
                           m.authority.previous,
                           d.commitLsn, m.id, d.tables, ToEvents(a.rows))
  {
    hide Normalize, Parse, SortedSet, DistinctSlots, KeyFault, ToEvents, IdsOf, TableNames;
    SortFacts(group, OrderKey);
  }

  lemma OneAnswers(events: seq<Arrival>, tx: string, m: Manifest, a: Assembly)
    requires AssembledFrom(events, tx, m, a)
    ensures Answers(a, DescriptorMap(m.authority.transactions)[tx], m) && a.plan.tx == tx
    ensures multiset(a.rows) == multiset(Group(events, tx))
  {
    hide AssembleOne, Normalize, DescriptorMap, Assembled, SortedSet, ToEvents, IdsOf, TableNames, Group, SortBy;
    var group := Group(events, tx);
    OneOpens(group, tx, DescriptorMap(m.authority.transactions)[tx], m, a);
    SortFacts(group, OrderKey);
    GroupMeans(events, tx);
    PlanIsAssembled(a.plan, a.rows);
  }

  lemma TablesAgree(rows: seq<Arrival>)
    ensures Elements(TableNames(rows)) == TablesOf(ToEvents(rows))
  {
    var names, events := TableNames(rows), ToEvents(rows);
    forall t | t in Elements(names) ensures t in TablesOf(events) {
      var i :| 0 <= i < |names| && names[i] == t;
      assert events[i] in events && events[i].table == t;
    }
    forall t | t in TablesOf(events) ensures t in Elements(names) {
      var i :| 0 <= i < |events| && events[i].table == t;
      assert names[i] == t;
    }
  }

  lemma {:induction false} AllAssembled(events: seq<Arrival>, txs: seq<string>, m: Manifest, n: nat)
    requires n <= |txs|
    requires forall tx :: tx in txs ==> tx in FirstSeen(events) && tx in DescriptorMap(m.authority.transactions)
    requires AssembleAll(events, txs, m, n).Ok?
    ensures |AssembleAll(events, txs, m, n).value| == n
    ensures forall i :: 0 <= i < n ==> AssembledFrom(events, txs[i], m, AssembleAll(events, txs, m, n).value[i])
  {
    hide AssembleOne, DescriptorMap, Group;
    if n > 0 {
      AllAssembled(events, txs, m, n - 1);
      GroupMeans(events, txs[n - 1]);
    }
  }

  function Only(events: seq<Arrival>, txs: set<string>): seq<Arrival>
  {
    if events == [] then []
    else
      var last := events[|events| - 1];
      Only(events[..|events| - 1], txs) + (if last.tx in txs then [last] else [])
  }

  lemma {:induction false} OnlyAll(events: seq<Arrival>, txs: set<string>)
    requires forall e :: e in events ==> e.tx in txs
    ensures Only(events, txs) == events
  {
    if events != [] {
      assert events == events[..|events| - 1] + [events[|events| - 1]];
      OnlyAll(events[..|events| - 1], txs);
    }
  }

  lemma {:induction false} OnlyNone(events: seq<Arrival>)
    ensures Only(events, {}) == []
  {
    if events != [] { OnlyNone(events[..|events| - 1]); }
  }

  lemma {:induction false} OnlyOneMore(events: seq<Arrival>, txs: set<string>, tx: string)
    requires tx !in txs
    ensures multiset(Only(events, txs + {tx})) == multiset(Only(events, txs)) + multiset(Group(events, tx))
  {
    if events != [] { OnlyOneMore(events[..|events| - 1], txs, tx); }
  }

  lemma {:induction false} RowsPartition(events: seq<Arrival>, txs: seq<string>, m: Manifest, assemblies: seq<Assembly>)
    requires |assemblies| == |txs| && Distinct(txs)
    requires forall i :: 0 <= i < |txs| ==> AssembledFrom(events, txs[i], m, assemblies[i])
    ensures multiset(Rows(assemblies)) == multiset(Only(events, Elements(txs)))
    decreases |txs|
  {
    hide AssembledFrom, Answers, DescriptorMap, Group;
    if txs == [] {
      OnlyNone(events);
      assert Elements(txs) == {};
    } else {
      var n := |txs| - 1;
      RowsPartition(events, txs[..n], m, assemblies[..n]);
      OneAnswers(events, txs[n], m, assemblies[n]);
      assert txs == txs[..n] + [txs[n]];
      assert Elements(txs) == Elements(txs[..n]) + {txs[n]};
      assert txs[n] !in Elements(txs[..n]);
      OnlyOneMore(events, Elements(txs[..n]), txs[n]);
    }
  }

  lemma {:induction false} RowsPermute(a: seq<Assembly>, b: seq<Assembly>)
    requires multiset(a) == multiset(b)
    ensures multiset(Rows(a)) == multiset(Rows(b))
    decreases |a|
  {
    assert |a| == |multiset(a)| == |multiset(b)| == |b|;
    if a != [] {
      var n := |a| - 1;
      var last := a[n];
      assert last in multiset(b);
      var j :| 0 <= j < |b| && b[j] == last;
      var rest := b[..j] + b[j + 1..];
      assert b == b[..j] + [last] + b[j + 1..];
      assert a == a[..n] + [last];
      assert multiset(rest) == multiset(b) - multiset{last};
      RowsPermute(a[..n], rest);
      RowsWithout(b, j);
    }
  }

  lemma {:induction false} RowsConcat(a: seq<Assembly>, b: seq<Assembly>)
    ensures Rows(a + b) == Rows(a) + Rows(b)
    decreases |b|
  {
    if b == [] {
      assert a + b == a;
    } else {
      var front, last := b[..|b| - 1], b[|b| - 1];
      assert (a + b)[..|a + b| - 1] == a + front && (a + b)[|a + b| - 1] == last;
      RowsConcat(a, front);
    }
  }

  lemma {:induction false} RowsWithout(b: seq<Assembly>, j: nat)
    requires j < |b|
    ensures multiset(Rows(b)) == multiset(Rows(b[..j] + b[j + 1..])) + multiset(b[j].rows)
  {
    assert b == b[..j] + ([b[j]] + b[j + 1..]);
    RowsConcat(b[..j], [b[j]] + b[j + 1..]);
    RowsConcat([b[j]], b[j + 1..]);
    RowsConcat(b[..j], b[j + 1..]);
    assert [b[j]][..0] == [] && Rows([b[j]]) == Rows([]) + b[j].rows == b[j].rows;
  }

  /** Whatever the manifest, accepted plans partition the events, and each answers its descriptor. */
  lemma AssemblyIsSound(events: seq<Arrival>, m: Manifest, admitted: set<string>)
    requires Assemble(events, m, admitted).Ok?
    ensures multiset(Rows(Assemble(events, m, admitted).value)) == multiset(events)
    ensures Sorted(Assemble(events, m, admitted).value, AssemblyKey)
    ensures AllAnswer(Assemble(events, m, admitted).value, m)
  {
    hide Parse, KeyFault, IntervalFault, ShapeFault, AssembleAll, FirstSeen, AssembleOne, Answers;
    var sorted := SortBy(events, OrderKey);
    SortFacts(events, OrderKey);
    AssembleAllIsSound(sorted, m);
  }

  ghost predicate AllAnswer(assemblies: seq<Assembly>, m: Manifest)
  {
    forall a :: a in assemblies ==>
      && a.plan.tx in DescriptorMap(m.authority.transactions)
      && Answers(a, DescriptorMap(m.authority.transactions)[a.plan.tx], m)
  }

  lemma EachAnswers(sorted: seq<Arrival>, txs: seq<string>, m: Manifest, assemblies: seq<Assembly>)
    requires |assemblies| == |txs|
    requires forall i :: 0 <= i < |txs| ==> AssembledFrom(sorted, txs[i], m, assemblies[i])
    ensures AllAnswer(assemblies, m)
  {
    hide AssembleOne, Answers, DescriptorMap, Group;
    forall a | a in assemblies
      ensures a.plan.tx in DescriptorMap(m.authority.transactions)
      ensures Answers(a, DescriptorMap(m.authority.transactions)[a.plan.tx], m)
    {
      var i :| 0 <= i < |assemblies| && assemblies[i] == a;
      OneAnswers(sorted, txs[i], m, a);
    }
  }

  lemma CoversAll(sorted: seq<Arrival>)
    ensures Only(sorted, Elements(FirstSeen(sorted))) == sorted
  {
    forall e | e in sorted ensures e.tx in Elements(FirstSeen(sorted)) {
      GroupMeans(sorted, e.tx);
      assert e in Group(sorted, e.tx);
    }
    OnlyAll(sorted, Elements(FirstSeen(sorted)));
  }

  lemma AssembleAllIsSound(sorted: seq<Arrival>, m: Manifest)
    requires DescriptorMap(m.authority.transactions).Keys == Elements(FirstSeen(sorted))
    requires AssemblesAll(sorted, m).Ok?
    ensures var r := SortBy(AssemblesAll(sorted, m).value, AssemblyKey);
            multiset(Rows(r)) == multiset(sorted) && Sorted(r, AssemblyKey) && AllAnswer(r, m)
  {
    hide AssembledFrom, AssembleAll, Answers, FirstSeen, DescriptorMap, Only, Rows;
    var txs := FirstSeen(sorted);
    assert forall tx :: tx in txs ==> tx in Elements(txs);
    var assemblies := AssemblesAll(sorted, m).value;
    AllAssembled(sorted, txs, m, |txs|);
    RowsPartition(sorted, txs, m, assemblies);
    CoversAll(sorted);
    EachAnswers(sorted, txs, m, assemblies);
    SortFacts(assemblies, AssemblyKey);
    RowsPermute(SortBy(assemblies, AssemblyKey), assemblies);
  }

  lemma KeysTellApart(events: seq<Arrival>)
    requires DistinctIds(events)
    ensures InjectiveOn(events, OrderKey)
  {
    forall x, y | x in events && y in events && OrderKey(x) == OrderKey(y) ensures x == y {
      assert OrderKey(x)[3..] == Chars(x.id) && OrderKey(y)[3..] == Chars(y.id);
      CharsInjective(x.id, y.id);
    }
  }

  lemma SameErrors(a: seq<Arrival>, b: seq<Arrival>, check: Arrival -> Option<Code>)
    requires multiset(a) == multiset(b)
    ensures FirstError(a, check) == None <==> FirstError(b, check) == None
  {
    ErrorFree(a, check);
    ErrorFree(b, check);
    forall e ensures e in a <==> e in b {
      assert e in multiset(a) <==> e in multiset(b);
    }
  }

  /** Ordering succeeds on one arrival order exactly when it does on another, with the same result. */
  lemma OrderingForgets(events: seq<Arrival>, perm: seq<Arrival>)
    requires multiset(events) == multiset(perm) && DistinctIds(events)
    ensures Ordered(events).Ok? <==> Ordered(perm).Ok?
    ensures Ordered(events).Ok? ==> Ordered(perm) == Ordered(events)
  {
    SameErrors(events, perm, KeyFault);
    KeysTellApart(events);
    SortForgetsOrder(events, perm, OrderKey);
  }

  lemma IntervalForgets(events: seq<Arrival>, perm: seq<Arrival>, previous: string, terminal: string)
    requires multiset(events) == multiset(perm) && IntervalFault(events, previous, terminal) == None
    ensures Normalize(previous).Some? && Normalize(terminal).Some?
    ensures IntervalFault(perm, Normalize(previous).value, Normalize(terminal).value) == None
  {
    NormalizeMeaning(previous);
    NormalizeMeaning(terminal);
    var lower, upper := Parse(previous).value, Parse(terminal).value;
    SameErrors(events, perm, e => IntervalError(e, lower, upper));
  }

  lemma {:induction false} GroupKeepsOrder(events: seq<Arrival>, tx: string)
    ensures Sorted(events, OrderKey) ==> Sorted(Group(events, tx), OrderKey)
    ensures DistinctSlots(events) ==> DistinctSlots(Group(events, tx))
  {
    hide OrderKey, Chars, Le;
    if events != [] {
      var front, last := events[..|events| - 1], events[|events| - 1];
      GroupKeepsOrder(front, tx);
      GroupMeans(front, tx);
      var g := Group(front, tx);
      forall i | 0 <= i < |g|
        ensures Sorted(events, OrderKey) ==> Le(OrderKey(g[i]), OrderKey(last))
        ensures DistinctSlots(events) ==> Slot(g[i]) != Slot(last)
      {
        assert g[i] in g && g[i] in front;
        var k :| 0 <= k < |front| && front[k] == g[i];
        assert events[k] == g[i];
      }
    }
  }

  lemma {:induction false} GroupOfSorted(events: seq<Arrival>, tx: string)
    requires Sorted(events, OrderKey) && DistinctSlots(events) && DistinctIds(events)
    requires forall e :: e in events ==> KeyFault(e) == None
    ensures Ordered(Group(events, tx)) == Ok(Group(events, tx))
  {
    var g := Group(events, tx);
    GroupKeepsOrder(events, tx);
    GroupMeans(events, tx);
    ErrorFree(g, KeyFault);
    KeysTellApart(g);
    SortFacts(g, OrderKey);
    SortedUnique(g, SortBy(g, OrderKey), OrderKey);
  }

  lemma {:induction false} AllDescribed(events: seq<Arrival>, txs: seq<string>, n: nat)
    requires n <= |txs| && forall tx :: tx in txs ==> tx in FirstSeen(events)
    requires DescribeAll(events, txs, n).Ok?
    ensures |DescribeAll(events, txs, n).value| == n
    ensures forall i :: 0 <= i < n ==> DescribedFrom(events, txs[i], DescribeAll(events, txs, n).value[i])
  {
    hide Normalize, Parse;
    if n > 0 {
      AllDescribed(events, txs, n - 1);
      GroupMeans(events, txs[n - 1]);
    }
  }

  lemma {:induction false} MapOfDescriptors(ds: seq<Descriptor>, txs: seq<string>)
    requires |ds| == |txs| && Distinct(txs) && forall i :: 0 <= i < |ds| ==> ds[i].tx == txs[i]
    ensures DescriptorMap(ds).Keys == Elements(txs)
    ensures forall i :: 0 <= i < |ds| ==> DescriptorMap(ds)[txs[i]] == ds[i]
    decreases |ds|
  {
    if ds != [] {
      var n := |ds| - 1;
      MapOfDescriptors(ds[..n], txs[..n]);
      assert txs == txs[..n] + [txs[n]];
    }
  }

  /** What the manifest built from the ordered events records of its transactions. */
  ghost predicate Describes(m: Manifest, sorted: seq<Arrival>)
  {
    var ds, txs := m.authority.transactions, InOrder(sorted);
    && |ds| == |txs| && DescriptorMap(ds).Keys == Elements(FirstSeen(sorted))
    && forall i :: 0 <= i < |ds| ==>
         DescribedFrom(sorted, txs[i], ds[i]) && txs[i] in DescriptorMap(ds) && DescriptorMap(ds)[txs[i]] == ds[i]
  }

  lemma DescribedNames(events: seq<Arrival>, txs: seq<string>, ds: seq<Descriptor>)
    requires |ds| == |txs| && forall i :: 0 <= i < |txs| ==> DescribedFrom(events, txs[i], ds[i])
    ensures forall i :: 0 <= i < |txs| ==> ds[i].tx == txs[i]
  {
    hide Group, Numbered, Normalize, SortedSet;
  }

  lemma BuiltDescribes(sorted: seq<Arrival>, m: Manifest)
    requires DescribeAll(sorted, InOrder(sorted), |InOrder(sorted)|) == Ok(m.authority.transactions)
    ensures Describes(m, sorted)
  {
    hide DescribedFrom, DescribeAll, FirstSeen;
    var txs := InOrder(sorted);
    AllDescribed(sorted, txs, |txs|);
    DescribedNames(sorted, txs, m.authority.transactions);
    DistinctPermutation(FirstSeen(sorted), txs);
    MapOfDescriptors(m.authority.transactions, txs);
    assert Elements(txs) == Elements(FirstSeen(sorted));
  }

  const NOTHING := Assembly(0, [], Plan("", "", Given(""), "", "", "", [], []))

  /** The assembly of a transaction, straight from its events. */
  function Direct(sorted: seq<Arrival>, m: Manifest, tx: string): Assembly
  {
    var rows := Group(sorted, tx);
    if rows == [] then NOTHING
    else
      match Normalize(rows[|rows| - 1].position)
      case None => NOTHING
      case Some(commitLsn) =>
        Assembly(rows[0].txSequence, rows,
                 Plan(m.authority.gen, tx, TransactionInput(m.id, Projections(ToEvents(rows))), m.authority.previous,
                      commitLsn, m.id,
                      SortedSet(TableNames(rows)), ToEvents(rows)))
  }

  /** The ordered events of an admitted interval. */
  ghost predicate Orderly(sorted: seq<Arrival>)
  {
    && Sorted(sorted, OrderKey) && DistinctSlots(sorted) && DistinctIds(sorted)
    && forall e :: e in sorted ==> KeyFault(e) == None
  }

  lemma OneDirect(sorted: seq<Arrival>, m: Manifest, i: nat)
    requires Orderly(sorted) && Describes(m, sorted) && i < |m.authority.transactions|
    ensures var tx, d := InOrder(sorted)[i], m.authority.transactions[i];
            && AssembleOne(Group(sorted, tx), tx, d, m) == Ok(Direct(sorted, m, tx))
            && AssemblyKey(Direct(sorted, m, tx)) == GroupKey(sorted, tx)
            && Numbered(Direct(sorted, m, tx).rows) && Direct(sorted, m, tx).rows == Group(sorted, tx)
  {
    GroupOfSorted(sorted, InOrder(sorted)[i]);
  }

  lemma {:induction false} AllDirect(sorted: seq<Arrival>, m: Manifest, txs: seq<string>, n: nat)
    requires Orderly(sorted) && Describes(m, sorted) && n <= |txs|
    requires forall tx :: tx in txs ==> tx in FirstSeen(sorted) && tx in DescriptorMap(m.authority.transactions)
    ensures AssembleAll(sorted, txs, m, n) == Ok(Mapped(txs[..n], tx => Direct(sorted, m, tx)))
  {
    hide AssembleOne, Direct, Describe, DescribedFrom, Orderly, Group, DescriptorMap, FirstSeen, Numbered, GroupKey;
    var f := (tx: string) => Direct(sorted, m, tx);
    if n == 0 {
      assert Mapped(txs[..0], f) == [];
    } else {
      var tx := txs[n - 1];
      assert Mapped(txs[..n], f) == Mapped(txs[..n - 1], f) + [f(tx)];
      AllDirect(sorted, m, txs, n - 1);
      assert tx in InOrder(sorted);
      var i :| 0 <= i < |InOrder(sorted)| && InOrder(sorted)[i] == tx;
      OneDirect(sorted, m, i);
    }
  }

  /** In manifest order, one plan per descriptor, numbered from one. */
  ghost predicate InManifestOrder(assemblies: seq<Assembly>, m: Manifest)
  {
    && |assemblies| == |m.authority.transactions|
    && forall i :: 0 <= i < |assemblies| ==>
         && assemblies[i].plan.tx == m.authority.transactions[i].tx
         && Answers(assemblies[i], m.authority.transactions[i], m)
         && Numbered(assemblies[i].rows)
  }

  lemma DirectKey(sorted: seq<Arrival>, m: Manifest, tx: string)
    requires Orderly(sorted) && Describes(m, sorted) && tx in FirstSeen(sorted)
    ensures GroupKey(sorted, tx) == AssemblyKey(Direct(sorted, m, tx))
  {
    hide Direct, Orderly, AssembleOne, DescribedFrom;
    assert tx in InOrder(sorted);
    var i :| 0 <= i < |InOrder(sorted)| && InOrder(sorted)[i] == tx;
    OneDirect(sorted, m, i);
  }

  lemma DirectAnswers(sorted: seq<Arrival>, m: Manifest, i: nat)
    requires Orderly(sorted) && Describes(m, sorted) && i < |m.authority.transactions|
    ensures var (a, d) := (Direct(sorted, m, InOrder(sorted)[i]), m.authority.transactions[i]);
            a.plan.tx == d.tx && Answers(a, d, m) && Numbered(a.rows)
  {
    hide Answers, Normalize, Orderly, Direct;
    OneDirect(sorted, m, i);
    OneAnswers(sorted, InOrder(sorted)[i], m, Direct(sorted, m, InOrder(sorted)[i]));
  }

  lemma DirectOrder(sorted: seq<Arrival>, m: Manifest)
    requires Orderly(sorted) && Describes(m, sorted)
    ensures var f := (tx: string) => Direct(sorted, m, tx);
            && SortBy(Mapped(FirstSeen(sorted), f), AssemblyKey) == Mapped(InOrder(sorted), f)
            && InManifestOrder(Mapped(InOrder(sorted), f), m)
  {
    hide Direct, Orderly, DescribedFrom, Answers, FirstSeen, GroupKey, Numbered;
    var f := (tx: string) => Direct(sorted, m, tx);
    forall tx | tx in FirstSeen(sorted) ensures GroupKey(sorted, tx) == AssemblyKey(f(tx)) {
      DirectKey(sorted, m, tx);
    }
    SortMapped(FirstSeen(sorted), f, tx => GroupKey(sorted, tx), AssemblyKey);
    forall i | 0 <= i < |m.authority.transactions|
      ensures f(InOrder(sorted)[i]).plan.tx == m.authority.transactions[i].tx
      ensures Answers(f(InOrder(sorted)[i]), m.authority.transactions[i], m) && Numbered(f(InOrder(sorted)[i]).rows)
    {
      DirectAnswers(sorted, m, i);
    }
  }

  /**
  Round trip.  A manifest built from admitted, well-shaped events with distinct ids
  assembles them in whatever order they arrive: always the same plans, one for each
  descriptor in manifest order, that partition the events and number them from one.
  */
  lemma RoundTrip(events: seq<Arrival>, perm: seq<Arrival>, terms: Terms, digest: Authority -> string,
                  admitted: set<string>)
    requires Build(events, terms, digest).Ok?
    requires multiset(perm) == multiset(events) && DistinctIds(events)
    requires forall e :: e in events ==> ShapeFault(e, terms.gen, admitted) == None
    ensures var m := Build(events, terms, digest).value;
            && Assemble(perm, m, admitted).Ok? && Assemble(perm, m, admitted) == Assemble(events, m, admitted)
            && InManifestOrder(Assemble(perm, m, admitted).value, m)
            && multiset(Rows(Assemble(perm, m, admitted).value)) == multiset(events)
  {
    var m := Build(events, terms, digest).value;
    AssemblesDirectly(events, events, terms, digest, admitted);
    AssemblesDirectly(events, perm, terms, digest, admitted);
    AssemblyIsSound(perm, m, admitted);
  }

  /** What an accepted build has established, and what it puts in the manifest. */
  lemma BuildOpens(events: seq<Arrival>, terms: Terms, digest: Authority -> string)
    requires Build(events, terms, digest).Ok?
    ensures var m, sorted := Build(events, terms, digest).value, SortBy(events, OrderKey);
            && IntervalFault(events, terms.previous, terms.terminal) == None
            && Ordered(events) == Ok(sorted)
            && DescribeAll(sorted, InOrder(sorted), |InOrder(sorted)|) == Ok(m.authority.transactions)
            && Normalize(terms.previous) == Some(m.authority.previous)
            && Normalize(terms.terminal) == Some(m.authority.terminal)
            && m.authority.gen == terms.gen && m.id == digest(m.authority)
  {
    hide Normalize, IntervalFault, DescribeAll, InOrder, SortBy, OrderKey, KeyFault, DistinctSlots;
  }

  lemma OrderlyOnce(events: seq<Arrival>)
    requires Ordered(events).Ok? && DistinctIds(events)
    ensures Orderly(SortBy(events, OrderKey)) && forall e :: e in SortBy(events, OrderKey) <==> e in events
  {
    hide KeyFault, OrderKey;
    SortFacts(events, OrderKey);
    ErrorFree(events, KeyFault);
  }

  /** An assembly whose checks pass. */
  lemma AssembleOpens(perm: seq<Arrival>, m: Manifest, admitted: set<string>, sorted: seq<Arrival>, made: seq<Assembly>)
    requires IntervalFault(perm, m.authority.previous, m.authority.terminal) == None && Ordered(perm) == Ok(sorted)
    requires forall e :: e in sorted ==> ShapeFault(e, m.authority.gen, admitted) == None
    requires DescriptorMap(m.authority.transactions).Keys == Elements(FirstSeen(sorted))
    requires AssemblesAll(sorted, m) == Ok(made)
    ensures Assemble(perm, m, admitted) == Ok(SortBy(made, AssemblyKey))
  {
    hide IntervalFault, Ordered, ShapeFault, DescriptorMap, FirstSeen, AssemblesAll, SortBy;
    ErrorFree(sorted, e => ShapeFault(e, m.authority.gen, admitted));
  }

  lemma AllAssembledDirectly(sorted: seq<Arrival>, m: Manifest)
    requires Orderly(sorted) && Describes(m, sorted)
    ensures AssemblesAll(sorted, m) == Ok(Mapped(FirstSeen(sorted), tx => Direct(sorted, m, tx)))
  {
    hide Orderly, AssembleAll, FirstSeen, Direct, DescribedFrom;
    var txs := FirstSeen(sorted);
    assert forall tx :: tx in txs ==> tx in Elements(txs);
    AllDirect(sorted, m, txs, |txs|);
    assert txs[..|txs|] == txs;
  }

  lemma AssemblesDirectly(events: seq<Arrival>, perm: seq<Arrival>, terms: Terms, digest: Authority -> string,
                          admitted: set<string>)
    requires Build(events, terms, digest).Ok?
    requires multiset(perm) == multiset(events) && DistinctIds(events)
    requires forall e :: e in events ==> ShapeFault(e, terms.gen, admitted) == None
    ensures var m, sorted := Build(events, terms, digest).value, SortBy(events, OrderKey);
            && Assemble(perm, m, admitted) == Ok(Mapped(InOrder(sorted), tx => Direct(sorted, m, tx)))
            && InManifestOrder(Assemble(perm, m, admitted).value, m)
  {
    hide Build, Assemble, Orderly, Ordered, IntervalFault, DescribeAll, DescribedFrom, Direct;
    hide SortBy, OrderKey, FirstSeen;
    hide ShapeFault, Normalize, InManifestOrder, AssemblesAll, DescriptorMap, InOrder, AssemblyKey, DistinctIds;
    var m, sorted := Build(events, terms, digest).value, SortBy(events, OrderKey);
    BuildOpens(events, terms, digest);
    IntervalForgets(events, perm, terms.previous, terms.terminal);
    OrderingForgets(events, perm);
    OrderlyOnce(events);
    BuiltDescribes(sorted, m);
    AllAssembledDirectly(sorted, m);
    AssembleOpens(perm, m, admitted, sorted, AssemblesAll(sorted, m).value);
    DirectOrder(sorted, m);
  }
}
