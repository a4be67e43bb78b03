/**
The pieces put together: a target that starts as the source's snapshot and is fed the
source's later transactions through the apply coordinator, killed at will, ends as the
source.
*/
module EndToEnd {
  import opened Common
  import opened Events
  import opened CdcApply
  import opened CdcStream
  import B = BatchRefinement
  import I = CdcInvariant
  import Ref = ReferenceCdc
  import S = SourceReplay
  import SF = SourceReplayFacts

  function Plans(stream: seq<Delivery>): seq<Plan> { seq(|stream|, i requires 0 <= i < |stream| => stream[i].plan) }

  lemma {:induction false} FeedIsReference(work: Ref.Work, stream: seq<Delivery>)
    ensures Reference(work, stream).Some? <==> SF.Feed(work, Plans(stream)).Ok?
    ensures Reference(work, stream).Some? ==> Reference(work, stream).value == SF.Feed(work, Plans(stream)).value
    decreases |stream|
  {
    if stream != [] {
      assert Plans(stream)[0] == stream[0].plan && Plans(stream)[1..] == Plans(stream[1..]);
      match Ref.ApplyEvents(work, stream[0].plan.events)
      case Ok(work') => FeedIsReference(work', stream[1..]);
      case Err(_) =>
    }
  }

  lemma ReadyIsFresh(w: World, work: Ref.Work, stream: seq<Delivery>, gen: string)
    requires StreamReady(w, work, stream, gen)
    ensures SF.FreshPlans(work, Plans(stream))
  {
    var plans := Plans(stream);
    forall p | p in plans ensures Ref.FreshDeletes(work, p.events) {
      var i :| 0 <= i < |plans| && plans[i] == p;
      assert stream[i] in stream;
    }
    forall i, j | 0 <= i < j < |plans| ensures SF.DeleteIds(plans[i].events) !! SF.DeleteIds(plans[j].events) {
      forall id | id in SF.DeleteIds(plans[i].events) ensures id !in SF.DeleteIds(plans[j].events) {
        assert DeleteIds(stream[i].plan, id);
        assert !DeleteIds(stream[j].plan, id);
      }
    }
  }

  /**
  The target equals the source.  From tables equal to the source at the boundary, the
  transactions committed after it, each delivered through the coordinator with any
  number of killed calls, reach the end of a replayable stream if and only if each
  touches no row twice; and if so, the tables hold exactly the source's rows.  A stream
  of such transactions reaches its end if and only if the source's own replay succeeds.
  */
  lemma TargetEqualsSource(spec: S.Workload, applying: set<string>, w: World, stream: seq<Delivery>, gen: string)
    requires S.Replay(spec, S.PRE_BOUNDARY).Ok? && SF.PostFollowsPre(spec.material.transactions)
    requires I.Inv(w) && gen in applying && B.Agrees(w.tables, S.Replay(spec, S.PRE_BOUNDARY).value.rows)
    requires StreamReady(w, Ref.Work(S.Replay(spec, S.PRE_BOUNDARY).value.rows, map[]), stream, gen)
    requires SF.PlansCarry(Plans(stream), SF.Post(spec.material.transactions))
    ensures S.Replay(spec, S.POST_BOUNDARY).Ok? ==> (Deliver(applying, w, stream).Some? <==> AllDistinct(stream))
    ensures Deliver(applying, w, stream).Some? ==> (S.Replay(spec, S.POST_BOUNDARY).Ok? <==> AllDistinct(stream))
    ensures AllDistinct(stream) ==> (Deliver(applying, w, stream).Some? <==> S.Replay(spec, S.POST_BOUNDARY).Ok?)
    ensures Deliver(applying, w, stream).Some? && S.Replay(spec, S.POST_BOUNDARY).Ok? ==>
      B.Agrees(Deliver(applying, w, stream).value.tables, S.Replay(spec, S.POST_BOUNDARY).value.rows)
  {
    hide S.Replay, SF.Post, SF.PlansCarry, SF.Feed, StreamReady, Deliver, I.Inv, B.Agrees, AllDistinct;
    var work := Ref.Work(S.Replay(spec, S.PRE_BOUNDARY).value.rows, map[]);
    ReadyIsFresh(w, work, stream, gen);
    SF.ChangesFromBoundary(spec, Plans(stream));
    FeedIsReference(work, stream);
    StreamRefinesReference(applying, w, work, stream, gen);
  }
}
