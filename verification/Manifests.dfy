/**
Manifests and the checkpoint chain: every plan of a manifest starts at the manifest's
own frontier, so exactly the manifests of at most one transaction are delivered to
their end.
*/
module Manifests {
  import opened Common
  import opened Sorting
  import opened Events
  import opened CdcApply
  import opened CdcConvergence
  import opened CdcRestamp
  import opened CdcStall
  import opened CdcStream
  import A = Assembler
  import AF = AssemblerFacts
  import B = BatchRefinement
  import C = CdcControl
  import Chain = CdcChain
  import I = CdcInvariant
  import R = CdcRefinement
  import Ref = ReferenceCdc
  import Lsn

  /**
  Plans of an accepted assembly commit after the frontier they name, all name the
  manifest's own, and commit no later than its terminal frontier.
  */
  lemma AssembledPlansAdvance(events: seq<A.Arrival>, m: A.Manifest, admitted: set<string>)
    requires A.Assemble(events, m, admitted).Ok?
    ensures forall a :: a in A.Assemble(events, m, admitted).value ==>
      && Assembled(a.plan) && Chain.Advancing(a.plan)
      && a.plan.gen == m.authority.gen && a.plan.previousFrontier == m.authority.previous
      && Lsn.Position(a.plan.commitLsn) <= Lsn.Position(m.authority.terminal)
  {
    hide A.Assemble, Lsn.Parse, Lsn.Normalize, A.AssembleOne, AF.Rows, A.ToEvents, A.DescriptorMap;
    AF.AssemblyIsSound(events, m, admitted);
    AssembledInInterval(events, m, admitted);
    forall a | a in A.Assemble(events, m, admitted).value
      ensures Assembled(a.plan) && Chain.Advancing(a.plan)
      ensures a.plan.gen == m.authority.gen && a.plan.previousFrontier == m.authority.previous
      ensures Lsn.Position(a.plan.commitLsn) <= Lsn.Position(m.authority.terminal)
    {
      var last := a.rows[|a.rows| - 1];
      assert last in a.rows && last in AF.Rows(A.Assemble(events, m, admitted).value) by {
        RowIsListed(A.Assemble(events, m, admitted).value, a, last);
      }
      assert last in events by { assert last in multiset(AF.Rows(A.Assemble(events, m, admitted).value)); }
      Lsn.NormalizeMeaning(last.position);
    }
  }

  lemma {:induction false} RowIsListed(assemblies: seq<A.Assembly>, a: A.Assembly, e: A.Arrival)
    requires a in assemblies && e in a.rows
    ensures e in AF.Rows(assemblies)
    decreases |assemblies|
  {
    var front, last := assemblies[..|assemblies| - 1], assemblies[|assemblies| - 1];
    assert assemblies == front + [last];
    if a != last { RowIsListed(front, a, e); }
  }

  lemma AssembledInInterval(events: seq<A.Arrival>, m: A.Manifest, admitted: set<string>)
    requires A.Assemble(events, m, admitted).Ok?
    ensures Lsn.Parse(m.authority.previous).Some? && Lsn.Parse(m.authority.terminal).Some?
    ensures forall e :: e in events ==>
      && Lsn.Parse(e.position).Some?
      && Lsn.Parse(m.authority.previous).value < Lsn.Parse(e.position).value <= Lsn.Parse(m.authority.terminal).value
  {
    hide Lsn.Parse, A.Ordered, A.AssemblesAll;
    var lower, upper := Lsn.Parse(m.authority.previous).value, Lsn.Parse(m.authority.terminal).value;
    var check := (e: A.Arrival) => A.IntervalError(e, lower, upper);
    assert A.FirstError(events, check) == None;
    A.ErrorFree(events, check);
    forall e | e in events ensures Lsn.Parse(e.position).Some? && lower < Lsn.Parse(e.position).value <= upper {
      assert check(e) == None;
    }
  }

  /** Of the transactions of one manifest no run of assembled plans checkpoints two. */
  lemma ManifestStalls(applying: set<string>, w: World, attempts: seq<I.Attempt>, events: seq<A.Arrival>, m: A.Manifest,
                       admitted: set<string>, a: A.Assembly, b: A.Assembly)
    requires forall x :: x in attempts ==> Chain.Advancing(x.plan)
    requires A.Assemble(events, m, admitted).Ok?
    requires a in A.Assemble(events, m, admitted).value && b in A.Assemble(events, m, admitted).value
    requires a.plan.tx != b.plan.tx && a.plan in Chain.History(applying, w, attempts, m.authority.gen)
    ensures b.plan !in Chain.History(applying, w, attempts, m.authority.gen)
  {
    hide A.Assemble, Chain.History, Chain.Advancing;
    AssembledPlansAdvance(events, m, admitted);
    Chain.OneTransactionPerManifest(applying, w, attempts, a.plan, b.plan);
  }

  function TxOf(a: A.Assembly): string { a.plan.tx }

  /** Each transaction is assembled once. */
  lemma AssembledOnce(events: seq<A.Arrival>, m: A.Manifest, admitted: set<string>)
    requires A.Assemble(events, m, admitted).Ok?
    ensures Distinct(Mapped(A.Assemble(events, m, admitted).value, TxOf))
  {
    hide A.IntervalFault, A.Ordered, A.ShapeFault, A.FirstSeen, A.DescriptorMap, SortBy;
    hide A.AssembleAll, A.AssembleOne, A.Group;
    var sorted := A.Ordered(events).value;
    var txs, made := A.FirstSeen(sorted), A.AssemblesAll(sorted, m).value;
    assert forall tx :: tx in txs ==> tx in Elements(txs);
    AF.AllAssembled(sorted, txs, m, |txs|);
    forall i | 0 <= i < |txs| ensures TxOf(made[i]) == txs[i] { AF.OneAnswers(sorted, txs[i], m, made[i]); }
    assert Mapped(made, TxOf) == txs;
    SortKeepsImages(made, TxOf, A.AssemblyKey);
    DistinctPermutation(txs, Mapped(SortBy(made, A.AssemblyKey), TxOf));
  }

  /** The stream delivers the assembly's plans, in order. */
  ghost predicate DeliversAll(stream: seq<Delivery>, made: seq<A.Assembly>)
  {
    |stream| == |made| && forall i :: 0 <= i < |stream| ==> stream[i].plan == made[i].plan
  }

  /** The manifest is new to a world that stands at its frontier. */
  ghost predicate AtManifest(applying: set<string>, w: World, stream: seq<Delivery>, m: A.Manifest)
  {
    && m.authority.gen in applying
    && (m.authority.gen in w.control.checkpoints ==>
          w.control.checkpoints[m.authority.gen].frontier == m.authority.previous)
    && forall d :: d in stream ==> C.IdOf(d.plan) !in w.control.transactions
  }

  /** After one plan of a manifest was checkpointed, another one's call is a call from elsewhere. */
  lemma AfterTheFirst(applying: set<string>, w: World, a: Plan, b: Plan)
    requires I.Inv(w) && Assembled(a) && Assembled(b) && Chain.Advancing(a) && a.gen in applying
    requires a.gen == b.gen && a.previousFrontier == b.previousFrontier && a.tx != b.tx
    requires C.IdOf(a) !in w.control.transactions && C.IdOf(b) !in w.control.transactions
    requires Apply(applying, w, a, Unlimited).Returned?
    ensures var w1 := Apply(applying, w, a, Unlimited).world;
      && I.Inv(w1) && C.IdOf(b) !in w1.control.transactions && b.gen in w1.control.checkpoints
      && Resumes(applying, w1, b, Unlimited) && !FrontierFits(w1, b)
  {
    hide I.Inv, Apply, Assembled, Lsn.Position;
    SuccessAdds(applying, w, a);
    I.ApplyKeeps(applying, w, a, Unlimited);
  }

  /**
  The second transaction of a manifest.  Once another one is checkpointed, its call
  never returns; if its tables accept their batches they are all merged and receipted,
  the checkpoint stays, and the call ends in CB24C008.
  */
  lemma SecondStalls(applying: set<string>, w: World, a: Plan, b: Plan)
    requires I.Inv(w) && Assembled(a) && Assembled(b) && Chain.Advancing(a) && a.gen in applying
    requires a.gen == b.gen && a.previousFrontier == b.previousFrontier && a.tx != b.tx
    requires C.IdOf(a) !in w.control.transactions && C.IdOf(b) !in w.control.transactions
    requires Apply(applying, w, a, Unlimited).Returned?
    ensures var w1 := Apply(applying, w, a, Unlimited).world;
      var call := Apply(applying, w1, b, Unlimited);
      && call.Raised? && call.world.control.checkpoints == w1.control.checkpoints
      && (call.code == Control(C.CB24C008_FRONTIER_MISMATCH) <==> B.AllAccepted(w1.tables, b))
      && (B.AllAccepted(w1.tables, b) ==>
            && B.AllMerged(w1.tables, b, call.world.tables)
            && forall name :: name in b.tables ==> Receipted(call.world, b, name))
  {
    hide I.Inv, Apply, Assembled, B.AllAccepted, B.AllMerged, Receipted, Chain.Advancing, Resumes, FrontierFits;
    AfterTheFirst(applying, w, a, b);
    FreshCall(applying, Apply(applying, w, a, Unlimited).world, b);
  }

  lemma ReadyResumes(applying: set<string>, w: World, stream: seq<Delivery>, m: A.Manifest)
    requires AtManifest(applying, w, stream, m) && stream != []
    requires stream[0].plan.gen == m.authority.gen && stream[0].plan.previousFrontier == m.authority.previous
    ensures C.IdOf(stream[0].plan) !in w.control.transactions
    ensures Resumes(applying, w, stream[0].plan, Unlimited) && FrontierFits(w, stream[0].plan)
  {
    assert stream[0] in stream;
  }

  /**
  The exact condition of a manifest's delivery.  Its plans, delivered in order through
  any number of killed calls, all get checkpointed if and only if there is none, or just
  one and its tables accept their batches.
  */
  lemma ManifestDelivered(applying: set<string>, w: World, events: seq<A.Arrival>, m: A.Manifest, admitted: set<string>,
                          stream: seq<Delivery>)
    requires A.Assemble(events, m, admitted).Ok? && DeliversAll(stream, A.Assemble(events, m, admitted).value)
    requires I.Inv(w) && AtManifest(applying, w, stream, m)
    ensures Deliver(applying, w, stream).Some? <==>
      |stream| == 0 || (|stream| == 1 && B.AllAccepted(w.tables, stream[0].plan))
  {
    hide I.Inv, Apply, A.Assemble, Assembled, B.AllAccepted, B.AllMerged, Receipted;
    hide Chain.Advancing, Resumes, FrontierFits;
    if stream != [] {
      var made, a := A.Assemble(events, m, admitted).value, stream[0].plan;
      AssembledPlansAdvance(events, m, admitted);
      assert made[0] in made;
      ReadyResumes(applying, w, stream, m);
      FreshCall(applying, w, a);
      CrashConvergence(applying, w, a, stream[0].kills);
      var call := Apply(applying, w, a, Unlimited);
      if call.Returned? && |stream| > 1 {
        var b := stream[1].plan;
        assert made[1] in made && stream[1] in stream;
        AssembledOnce(events, m, admitted);
        assert TxOf(made[0]) != TxOf(made[1]) by { assert Mapped(made, TxOf)[0] != Mapped(made, TxOf)[1]; }
        SecondStalls(applying, w, a, b);
        CrashConvergence(applying, call.world, b, stream[1].kills);
        DeliverTwo(applying, w, stream);
      } else if |stream| == 1 {
        assert stream[1..] == [];
      }
    }
  }

  lemma DeliverTwo(applying: set<string>, w: World, stream: seq<Delivery>)
    requires |stream| >= 2
    requires var first :=
      Apply(applying, Retries(applying, w, stream[0].plan, stream[0].kills), stream[0].plan, Unlimited);
      first.Returned? &&
      var w1 := first.world;
      !Apply(applying, Retries(applying, w1, stream[1].plan, stream[1].kills), stream[1].plan, Unlimited).Returned?
    ensures Deliver(applying, w, stream) == None
  {
    hide Apply, Retries;
    assert stream[1..][0] == stream[1];
  }

  /** The same by the reference, for a manifest whose one transaction touches no row twice. */
  lemma ManifestDeliveredByReference(applying: set<string>, w: World, events: seq<A.Arrival>, m: A.Manifest,
                                     admitted: set<string>, stream: seq<Delivery>, work: Ref.Work)
    requires A.Assemble(events, m, admitted).Ok? && DeliversAll(stream, A.Assemble(events, m, admitted).value)
    requires I.Inv(w) && AtManifest(applying, w, stream, m) && B.Agrees(w.tables, work.rows)
    requires forall d :: d in stream ==>
      DistinctRows(d.plan.events) && AllKeyed(d.plan.events) && Ref.FreshDeletes(work, d.plan.events)
    ensures Deliver(applying, w, stream).Some? <==>
      |stream| == 0 || (|stream| == 1 && Ref.ApplyEvents(work, stream[0].plan.events).Ok?)
  {
    hide I.Inv, A.Assemble, AtManifest, B.AllAccepted, B.Agrees, DistinctRows, AllKeyed;
    hide Ref.ApplyEvents, Ref.FreshDeletes;
    ManifestDelivered(applying, w, events, m, admitted, stream);
    if |stream| == 1 {
      assert stream[0] in stream;
      AssembledPlansAdvance(events, m, admitted);
      assert A.Assemble(events, m, admitted).value[0] in A.Assemble(events, m, admitted).value;
      R.AssembledFits(stream[0].plan);
      B.BatchRefinesSequential(w.tables, stream[0].plan, work, w.tables);
    }
  }
}
