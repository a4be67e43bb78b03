/**
A whole stream of transactions delivered through the apply coordinator, each with
its own history of killed calls, against the sequential reference.
*/
module CdcStream {
  import opened Common
  import opened Events
  import opened BatchRefinement
  import opened CdcApply
  import opened CdcConvergence
  import opened CdcInvariant
  import opened CdcChain
  import opened CdcRefinement
  import Ref = ReferenceCdc
  import C = CdcControl

  datatype Delivery = Delivery(plan: Plan, kills: seq<Lease>)

  /** Deliver in order; `None` when a complete call raises. */
  function Deliver(applying: set<string>, w: World, stream: seq<Delivery>): Option<World>
    decreases |stream|
  {
    if stream == [] then Some(w)
    else
      var d := stream[0];
      match Apply(applying, Retries(applying, w, d.plan, d.kills), d.plan, Unlimited)
      case Returned(w', _) => Deliver(applying, w', stream[1..])
      case _ => None
  }

  /** The reference store's result on the same transactions. */
  function Reference(work: Ref.Work, stream: seq<Delivery>): Option<Ref.Work>
    decreases |stream|
  {
    if stream == [] then Some(work)
    else match Ref.ApplyEvents(work, stream[0].plan.events)
      case Ok(work') => Reference(work', stream[1..])
      case Err(_) => None
  }

  ghost predicate WellFormed(plan: Plan, gen: string)
  {
    plan.gen == gen && Assembled(plan) && AllKeyed(plan.events)
  }

  ghost predicate DeleteIds(plan: Plan, id: string)
  {
    exists e :: e in plan.events && e.change.Delete? && e.id == id
  }

  /** A new transaction with new delete ids. */
  ghost predicate Deliverable(w: World, work: Ref.Work, plan: Plan, gen: string)
  {
    && WellFormed(plan, gen)
    && C.IdOf(plan) !in w.control.transactions
    && Ref.FreshDeletes(work, plan.events)
    && forall id :: DeleteIds(plan, id) ==> (gen, id) !in w.control.tombstones
  }

  ghost predicate Apart(p: Plan, q: Plan)
  {
    p.tx != q.tx && forall id :: DeleteIds(p, id) ==> !DeleteIds(q, id)
  }

  /** New transaction ids, new delete ids, and each frontier starting where the last one ended. */
  ghost predicate StreamReady(w: World, work: Ref.Work, stream: seq<Delivery>, gen: string)
  {
    && (forall d :: d in stream ==> Deliverable(w, work, d.plan, gen))
    && (forall i, j :: 0 <= i < j < |stream| ==> Apart(stream[i].plan, stream[j].plan))
    && (stream != [] && gen in w.control.checkpoints ==>
          w.control.checkpoints[gen].frontier == stream[0].plan.previousFrontier)
    && (forall i :: 0 <= i < |stream| - 1 ==> stream[i + 1].plan.previousFrontier == stream[i].plan.commitLsn)
  }

  /** A successful call adds its transaction and its deletes, and moves the frontier. */
  lemma {:induction false} SuccessAdds(applying: set<string>, w: World, plan: Plan)
    requires C.IdOf(plan) !in w.control.transactions
    requires Apply(applying, w, plan, Unlimited).Returned?
    ensures var c' := Apply(applying, w, plan, Unlimited).world.control;
      && c'.transactions.Keys == w.control.transactions.Keys + {C.IdOf(plan)}
      && (forall id :: id in c'.tombstones && id !in w.control.tombstones ==> id.0 == plan.gen && DeleteIds(plan, id.1))
      && plan.gen in c'.checkpoints && c'.checkpoints[plan.gen].frontier == plan.commitLsn
      && c'.checkpoints[plan.gen].revision > 0
  {
    hide Work;
    var c1 := C.InitializeCheckpoint(w.control, plan.gen, plan.previousFrontier).control;
    var w2 := w.(control := C.Claim(c1, plan).control);
    var expected := c1.checkpoints[plan.gen].revision;
    assert Apply(applying, w, plan, Unlimited) == Work(w2, plan, expected, Unlimited);
    WorkAdds(w2, plan, expected);
  }

  lemma {:induction false} WorkAdds(w: World, plan: Plan, expected: nat)
    requires C.IdOf(plan) in w.control.transactions && !Checkpointed(w, plan)
    requires Work(w, plan, expected, Unlimited).Returned?
    ensures var c' := Work(w, plan, expected, Unlimited).world.control;
      && c'.transactions.Keys == w.control.transactions.Keys
      && (forall id :: id in c'.tombstones && id !in w.control.tombstones ==> id.0 == plan.gen && DeleteIds(plan, id.1))
      && plan.gen in c'.checkpoints && c'.checkpoints[plan.gen].frontier == plan.commitLsn
      && c'.checkpoints[plan.gen].revision > 0
  {
    VisitsGrow(w, plan, plan.Visits(), Unlimited);
    VisitsReturnNothing(w, plan, plan.Visits(), Unlimited);
    var p := VisitTables(w, plan, plan.Visits(), Unlimited);
    FinishAdds(p.world, plan, expected, p.lease);
  }

  lemma {:induction false} VisitsReturnNothing(w: World, plan: Plan, names: seq<string>, lease: Lease)
    ensures var p := VisitTables(w, plan, names, lease); p.Halt? ==> !p.call.Returned?
    decreases |names|
  {
    if names != [] {
      var p := VisitTable(w, plan, names[0], lease);
      if p.Continue? { VisitsReturnNothing(p.world, plan, names[1..], p.lease); }
    }
  }

  lemma {:induction false} FinishAdds(w: World, plan: Plan, expected: nat, lease: Lease)
    requires C.IdOf(plan) in w.control.transactions && !Checkpointed(w, plan)
    requires Finish(w, plan, expected, lease).Returned?
    ensures var c' := Finish(w, plan, expected, lease).world.control;
      && c'.transactions.Keys == w.control.transactions.Keys
      && (forall id :: id in c'.tombstones && id !in w.control.tombstones ==> id.0 == plan.gen && DeleteIds(plan, id.1))
      && plan.gen in c'.checkpoints && c'.checkpoints[plan.gen].frontier == plan.commitLsn
      && c'.checkpoints[plan.gen].revision > 0
  {
    var c' := Finish(w, plan, expected, lease).world.control;
    forall id | id in c'.tombstones && id !in w.control.tombstones ensures id.0 == plan.gen && DeleteIds(plan, id.1) {
      BuryAdds(w.control.tombstones, plan, plan.events, Tokens(plan), id);
    }
  }

  lemma {:induction false} StillDeliverable(applying: set<string>, w: World, work: Ref.Work, plan: Plan, gen: string,
                                            work': Ref.Work, next: Plan)
    requires WellFormed(plan, gen) && Deliverable(w, work, next, gen) && Apart(plan, next)
    requires C.IdOf(plan) !in w.control.transactions && Apply(applying, w, plan, Unlimited).Returned?
    requires Ref.Buried(work.tombstones, plan.events, work'.tombstones)
    ensures Deliverable(Apply(applying, w, plan, Unlimited).world, work', next, gen)
  {
    hide Apply, Assembled, AllKeyed;
    SuccessAdds(applying, w, plan);
    forall e | e in next.events && e.change.Delete? ensures e.id !in work'.tombstones {
      assert DeleteIds(next, e.id) && !DeleteIds(plan, e.id);
    }
  }

  lemma {:induction false} StillReady(applying: set<string>, w: World, work: Ref.Work, stream: seq<Delivery>,
                                      gen: string, work': Ref.Work)
    requires stream != [] && StreamReady(w, work, stream, gen)
    requires Apply(applying, w, stream[0].plan, Unlimited).Returned?
    requires Ref.Buried(work.tombstones, stream[0].plan.events, work'.tombstones)
    ensures StreamReady(Apply(applying, w, stream[0].plan, Unlimited).world, work', stream[1..], gen)
  {
    hide Apply, Apart, Ref.Buried, WellFormed, Ref.FreshDeletes;
    var plan, tail := stream[0].plan, stream[1..];
    assert stream[0] in stream;
    HeadGen(plan, gen);
    SuccessAdds(applying, w, plan);
    forall d | d in tail ensures Deliverable(Apply(applying, w, plan, Unlimited).world, work', d.plan, gen) {
      var i :| 0 <= i < |tail| && tail[i] == d;
      assert stream[i + 1] == d && d in stream && Apart(stream[0].plan, stream[i + 1].plan);
      StillDeliverable(applying, w, work, plan, gen, work', d.plan);
    }
    assert forall i :: 0 <= i < |tail| ==> tail[i] == stream[i + 1];
    forall i, j | 0 <= i < j < |tail| ensures Apart(tail[i].plan, tail[j].plan) {
      assert Apart(stream[i + 1].plan, stream[j + 1].plan);
    }
    forall i | 0 <= i < |tail| - 1 ensures tail[i + 1].plan.previousFrontier == tail[i].plan.commitLsn {
      assert stream[i + 1 + 1] == tail[i + 1];
    }
    assert tail != [] ==> stream[0 + 1] == tail[0];
  }

  lemma HeadGen(plan: Plan, gen: string)
    requires WellFormed(plan, gen)
    ensures plan.gen == gen
  {
  }

  /** No transaction touches a row twice. */
  ghost predicate AllDistinct(stream: seq<Delivery>)
  {
    forall d :: d in stream ==> DistinctRows(d.plan.events)
  }

  /**
  Whatever kills happened on the way: of the three conditions that a ready stream is
  delivered to its end, that the reference accepts every transaction and that no
  transaction touches a row twice, two never hold without the third.  When they hold,
  the target ends with the reference's rows.
  */
  lemma {:induction false} StreamRefinesReference(applying: set<string>, w: World, work: Ref.Work,
                                                  stream: seq<Delivery>, gen: string)
    requires Inv(w) && gen in applying && Agrees(w.tables, work.rows)
    requires StreamReady(w, work, stream, gen)
    ensures Reference(work, stream).Some? ==> (Deliver(applying, w, stream).Some? <==> AllDistinct(stream))
    ensures Deliver(applying, w, stream).Some? ==> (Reference(work, stream).Some? <==> AllDistinct(stream))
    ensures AllDistinct(stream) ==> (Deliver(applying, w, stream).Some? <==> Reference(work, stream).Some?)
    ensures Deliver(applying, w, stream).Some? && Reference(work, stream).Some? ==>
      Agrees(Deliver(applying, w, stream).value.tables, Reference(work, stream).value.rows)
    decreases |stream|
  {
    hide Inv, Apply, Ready, Agrees, StreamReady, SameTombstones, DistinctRows, AllKeyed, Assembled, Ref.ApplyEvents;
    if stream != [] {
      var d := stream[0];
      HeadReady(applying, w, work, stream, gen);
      ApplyRefinesReference(applying, w, d.plan, d.kills, work);
      CrashConvergence(applying, w, d.plan, d.kills);
      var call := Apply(applying, w, d.plan, Unlimited);
      assert stream == [d] + stream[1..];
      assert AllDistinct(stream) <==> DistinctRows(d.plan.events) && AllDistinct(stream[1..]);
      if call.Returned? && DistinctRows(d.plan.events) {
        Ref.SequentialMeaning(work, d.plan.events);
        var work' := Ref.ApplyEvents(work, d.plan.events).value;
        StillReady(applying, w, work, stream, gen, work');
        ApplyKeeps(applying, w, d.plan, Unlimited);
        StreamRefinesReference(applying, call.world, work', stream[1..], gen);
      }
    }
  }

  lemma {:induction false} HeadReady(applying: set<string>, w: World, work: Ref.Work, stream: seq<Delivery>,
                                     gen: string)
    requires stream != [] && gen in applying && StreamReady(w, work, stream, gen)
    ensures Ready(applying, w, stream[0].plan) && Assembled(stream[0].plan) && AllKeyed(stream[0].plan.events)
    ensures Ref.FreshDeletes(work, stream[0].plan.events)
  {
    hide Assembled, AllKeyed;
    var d := stream[0];
    assert d in stream;
    forall e | e in d.plan.events && e.change.Delete? ensures (d.plan.gen, e.id) !in w.control.tombstones {
      assert DeleteIds(d.plan, e.id);
    }
  }
}
