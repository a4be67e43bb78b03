/**
A manifest of two transactions, built, assembled and delivered: the second transaction's
rows become durable in the target, and its call ends in CB24C008.
*/
module TwoTransactions {
  import opened Common
  import opened Sorting
  import opened Events
  import opened CdcApply
  import opened CdcRestamp
  import opened CdcStall
  import opened CdcStream
  import opened Manifests
  import A = Assembler
  import AF = AssemblerFacts
  import B = BatchRefinement
  import C = CdcControl
  import Chain = CdcChain
  import I = CdcInvariant
  import T = IcebergCdc
  import Lsn

  /** When building succeeds: a sound interval, sound events of one generation, and numbered transactions. */
  lemma BuildSucceeds(events: seq<A.Arrival>, terms: A.Terms, digest: A.Authority -> string)
    requires A.IntervalFault(events, terms.previous, terms.terminal) == None
    requires forall e :: e in events ==> A.KeyFault(e) == None && e.gen == terms.gen
    requires A.DistinctSlots(SortBy(events, A.OrderKey))
    requires forall tx :: A.Numbered(A.Group(SortBy(events, A.OrderKey), tx))
    ensures A.Build(events, terms, digest).Ok?
  {
    hide A.KeyFault, A.IntervalFault, A.Group, A.OrderKey, A.DistinctSlots, A.FirstSeen;
    hide Lsn.Normalize, SortBy, A.DescribeAll;
    var sorted := SortBy(events, A.OrderKey);
    A.ErrorFree(events, A.KeyFault);
    SortFacts(events, A.OrderKey);
    A.ErrorFree(sorted, e => A.GenerationFault(e, terms.gen));
    AllDescribable(sorted, A.InOrder(sorted), |A.InOrder(sorted)|);
    Bounds(events, terms);
  }

  lemma Bounds(events: seq<A.Arrival>, terms: A.Terms)
    requires A.IntervalFault(events, terms.previous, terms.terminal) == None
    ensures Lsn.Normalize(terms.previous).Some? && Lsn.Normalize(terms.terminal).Some?
  {
    hide Lsn.Parse, Lsn.Normalize;
    Lsn.NormalizeMeaning(terms.previous);
    Lsn.NormalizeMeaning(terms.terminal);
  }

  lemma {:induction false} AllDescribable(sorted: seq<A.Arrival>, txs: seq<string>, n: nat)
    requires n <= |txs| && forall tx :: tx in txs ==> tx in A.FirstSeen(sorted)
    requires forall e :: e in sorted ==> A.KeyFault(e) == None
    requires forall tx :: A.Numbered(A.Group(sorted, tx))
    ensures A.DescribeAll(sorted, txs, n).Ok?
  {
    hide A.KeyFault, A.Group, A.FirstSeen, Lsn.Normalize, SortedSet;
    if n > 0 {
      AllDescribable(sorted, txs, n - 1);
      var group := A.Group(sorted, txs[n - 1]);
      A.GroupMeans(sorted, txs[n - 1]);
      assert group[|group| - 1] in group;
      KeyNormalizes(group[|group| - 1]);
    }
  }

  lemma KeyNormalizes(e: A.Arrival)
    requires A.KeyFault(e) == None
    ensures Lsn.Normalize(e.position).Some?
  {
    hide Lsn.Parse, Lsn.Normalize;
    Lsn.NormalizeMeaning(e.position);
  }

  function InsertArrival(tx: string, txSequence: int, id: string, table: string, key: string, position: nat): A.Arrival
  {
    A.Arrival("g", tx, txSequence, 1, id, "insert", table, key, None, Some(Row(key, map[])), "postgres_lsn",
              Lsn.Format(position), "s", "")
  }

  function First(): A.Arrival { InsertArrival("t1", 1, "e1", "orders", "k1", 1) }

  function Second(): A.Arrival { InsertArrival("t2", 2, "e2", "order_items", "k2", 2) }

  function Captured(): seq<A.Arrival> { [First(), Second()] }

  function Frontiers(): A.Terms { A.Terms("g", Lsn.Format(0), Lsn.Format(2), "", "") }

  lemma Positions()
    ensures Lsn.Parse(Lsn.Format(0)) == Some(0) && Lsn.Parse(Lsn.Format(1)) == Some(1)
    ensures Lsn.Parse(Lsn.Format(2)) == Some(2)
  {
    Lsn.FormatRoundTrip(0);
    Lsn.FormatRoundTrip(1);
    Lsn.FormatRoundTrip(2);
  }

  lemma CapturedSorted()
    ensures SortBy(Captured(), A.OrderKey) == Captured()
  {
    hide Lsn.Parse, Lsn.Format;
    Positions();
    AlreadySorted(First(), Second(), A.OrderKey);
  }

  lemma CapturedGroups(tx: string)
    ensures A.Group(Captured(), tx) == if tx == "t1" then [First()] else if tx == "t2" then [Second()] else []
  {
    hide Lsn.Format;
    assert Captured()[..1] == [First()] && [First()][..0] == [];
    assert A.Group([First()], tx) == A.Group([], tx) + (if tx == "t1" then [First()] else []);
  }

  lemma CapturedFirstSeen()
    ensures A.FirstSeen(Captured()) == ["t1", "t2"]
  {
    hide Lsn.Format;
    assert Captured()[..1] == [First()] && [First()][..0] == [];
    assert A.FirstSeen([First()]) == ["t1"];
    assert "t2" !in ["t1"];
    assert A.FirstSeen(Captured()) == ["t1"] + ["t2"];
  }

  lemma CapturedInOrder()
    ensures SortBy(Captured(), A.OrderKey) == Captured()
    ensures forall tx :: A.Group(Captured(), tx) == if tx == "t1" then [First()] else if tx == "t2" then [Second()]
      else []
    ensures A.InOrder(Captured()) == ["t1", "t2"]
  {
    hide A.Group, A.OrderKey, Captured, A.FirstSeen;
    CapturedSorted();
    forall tx { CapturedGroups(tx); }
    CapturedFirstSeen();
    assert Le(A.GroupKey(Captured(), "t1"), A.GroupKey(Captured(), "t2"));
    AlreadySorted("t1", "t2", tx => A.GroupKey(Captured(), tx));
  }

  lemma CapturedIsSound()
    ensures A.IntervalFault(Captured(), Frontiers().previous, Frontiers().terminal) == None
    ensures forall e :: e in Captured() ==> A.KeyFault(e) == None && e.gen == "g" && A.ShapeFault(e, "g", {"s"}) == None
  {
    hide Lsn.Parse, Lsn.Format;
    Positions();
    A.ErrorFree(Captured(), e => A.IntervalError(e, 0, 2));
  }

  lemma CapturedBuilds(digest: A.Authority -> string)
    ensures A.Build(Captured(), Frontiers(), digest).Ok?
    ensures A.Build(Captured(), Frontiers(), digest).value.authority.gen == "g"
  {
    hide A.Build, A.IntervalFault, A.KeyFault, A.ShapeFault, SortBy, A.Group, Lsn.Format;
    CapturedInOrder();
    CapturedIsSound();
    BuildSucceeds(Captured(), Frontiers(), digest);
    AF.BuildOpens(Captured(), Frontiers(), digest);
  }

  lemma DirectPlan(sorted: seq<A.Arrival>, m: A.Manifest, tx: string, e: A.Arrival)
    requires A.Group(sorted, tx) == [e] && A.KeyFault(e) == None
    ensures AF.Direct(sorted, m, tx).plan.tx == tx && AF.Direct(sorted, m, tx).plan.events == [A.ToEvent(e)]
  {
    hide A.KeyFault, A.Group, Lsn.Normalize, SortedSet, A.ToEvent;
    KeyNormalizes(e);
    assert A.ToEvents([e]) == [A.ToEvent(e)];
  }

  lemma CapturedIds()
    ensures AF.DistinctIds(Captured())
  {
    hide Lsn.Format;
  }

  /** Building succeeds, and assembling gives the two transactions' plans. */
  lemma CapturedAssembles(digest: A.Authority -> string)
    ensures A.Build(Captured(), Frontiers(), digest).Ok?
    ensures var m := A.Build(Captured(), Frontiers(), digest).value;
      && m.authority.gen == "g"
      && A.Assemble(Captured(), m, {"s"}).Ok?
      && var made := A.Assemble(Captured(), m, {"s"}).value;
         && |made| == 2 && made[0].plan.tx == "t1" && made[1].plan.tx == "t2"
         && made[0].plan.events == [A.ToEvent(First())] && made[1].plan.events == [A.ToEvent(Second())]
  {
    hide A.Build, A.Assemble, A.KeyFault, A.ShapeFault, SortBy, A.Group, A.FirstSeen, A.InOrder, InsertArrival;
    hide AF.Direct, AF.InManifestOrder, AF.DistinctIds, A.ToEvent, Lsn.Format;
    CapturedInOrder();
    CapturedIsSound();
    CapturedIds();
    CapturedBuilds(digest);
    var m := A.Build(Captured(), Frontiers(), digest).value;
    AF.AssemblesDirectly(Captured(), Captured(), Frontiers(), digest, {"s"});
    assert First() in Captured() && Second() in Captured();
    DirectPlan(Captured(), m, "t1", First());
    DirectPlan(Captured(), m, "t2", Second());
  }

  const FRESH := World(C.EMPTY, map[])

  /** A plan of one insert into a table without rows is accepted. */
  lemma OneInsertAccepted(tables: T.Tables, plan: Plan, e: Event)
    requires Assembled(plan) && plan.events == [e] && e.change.Insert? && T.TableOf(tables, e.table).rows == map[]
    ensures plan.tables == [e.table] && EventsFor(plan.events, e.table) == [e]
    ensures B.AllAccepted(tables, plan)
  {
    I.VisitsAreTables(plan);
    assert [e][1..] == [] && EventsFor([], e.table) == [];
    assert EventsFor([e], e.table) == [e] + EventsFor([], e.table);
    assert TablesOf([e]) == {e.table};
    assert Lists([e.table], {e.table});
    ListsUnique(plan.tables, [e.table], {e.table});
    assert T.CheckPreconditions(map[], [e]) == None;
  }

  lemma FreshIsFine()
    ensures I.Inv(FRESH)
  {
  }

  lemma RowsAfterInsert(e: Event)
    requires e.change.Insert? && e.change.after.key == e.key
    ensures T.At(T.Merge(map[], [e]), e.key) == [e.change.after]
  {
    assert [e][1..] == [];
    assert T.Matching([e], e.key) == [e] + T.Matching([], e.key);
    assert T.Inserted([e]) == [e.change.after] + T.Inserted([]);
    assert e.Image().key in T.ImageKeys([e]);
  }

  /**
  The stall, on the two-transaction manifest.  From fresh stores the first call
  returns; the second commits its row and then ends in CB24C008, the checkpoint still
  at the first transaction's position.
  */
  lemma SecondRowIsDurable(digest: A.Authority -> string)
    ensures A.Build(Captured(), Frontiers(), digest).Ok?
    ensures var m := A.Build(Captured(), Frontiers(), digest).value;
      && A.Assemble(Captured(), m, {"s"}).Ok?
      && var made := A.Assemble(Captured(), m, {"s"}).value;
         && |made| == 2
         && var first := Apply({"g"}, FRESH, made[0].plan, Unlimited);
            var second := Apply({"g"}, first.world, made[1].plan, Unlimited);
         && first.Returned?
         && second == Raised(second.world, Control(C.CB24C008_FRONTIER_MISMATCH))
         && T.At(T.TableOf(second.world.tables, "order_items").rows, "k2") == [Row("k2", map[])]
         && second.world.control.checkpoints == first.world.control.checkpoints
         && "g" in second.world.control.checkpoints
         && second.world.control.checkpoints["g"].frontier == made[0].plan.commitLsn
  {
    hide I.Inv, Apply, A.Build, A.Assemble, Assembled, B.AllAccepted, Chain.Advancing, Resumes;
    hide Lsn.Format, Captured, Frontiers;
    CapturedAssembles(digest);
    var m := A.Build(Captured(), Frontiers(), digest).value;
    var made := A.Assemble(Captured(), m, {"s"}).value;
    AssembledPlansAdvance(Captured(), m, {"s"});
    assert made[0] in made && made[1] in made;
    StallFromFresh(made[0].plan, made[1].plan, A.ToEvent(First()), A.ToEvent(Second()));
  }

  lemma FreshResumes(plan: Plan)
    requires plan.gen == "g"
    ensures Resumes({"g"}, FRESH, plan, Unlimited) && FrontierFits(FRESH, plan)
  {
  }

  lemma StallFromFresh(a: Plan, b: Plan, e: Event, f: Event)
    requires Assembled(a) && Assembled(b) && Chain.Advancing(a) && a.gen == b.gen == "g" && a.tx != b.tx
    requires a.previousFrontier == b.previousFrontier && a.events == [e] && b.events == [f]
    requires e.change.Insert? && f.change.Insert? && e.table != f.table && f.change.after.key == f.key
    ensures var first := Apply({"g"}, FRESH, a, Unlimited);
      var second := Apply({"g"}, first.world, b, Unlimited);
      && first.Returned?
      && second == Raised(second.world, Control(C.CB24C008_FRONTIER_MISMATCH))
      && T.At(T.TableOf(second.world.tables, f.table).rows, f.key) == [f.change.after]
      && second.world.control.checkpoints == first.world.control.checkpoints
      && "g" in second.world.control.checkpoints && second.world.control.checkpoints["g"].frontier == a.commitLsn
  {
    hide I.Inv, Apply, Assembled, B.AllAccepted, Chain.Advancing, Resumes, T.Merge, EventsFor, FrontierFits;
    FreshIsFine();
    FreshResumes(a);
    OneInsertAccepted(FRESH.tables, a, e);
    FreshCall({"g"}, FRESH, a);
    var first := Apply({"g"}, FRESH, a, Unlimited);
    SuccessAdds({"g"}, FRESH, a);
    assert T.TableOf(first.world.tables, f.table).rows == map[];
    OneInsertAccepted(first.world.tables, b, f);
    SecondStalls({"g"}, FRESH, a, b);
    RowsAfterInsert(f);
  }
}
