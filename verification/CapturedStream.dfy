/**
From captured events to the source's rows.  Each transaction committed after the
boundary is captured in arrivals, gets a manifest of its own that starts where the
one before it committed, is assembled from whatever order the arrivals come in, and is
delivered through killed calls.
*/
module CapturedStream {
  import opened Common
  import opened Sorting
  import opened Events
  import opened CdcApply
  import opened CdcStream
  import opened EndToEnd
  import A = Assembler
  import AF = AssemblerFacts
  import B = BatchRefinement
  import I = CdcInvariant
  import Ref = ReferenceCdc
  import S = SourceReplay
  import SF = SourceReplayFacts
  import Lsn

  /** One transaction's arrivals, the order in which they are assembled, and its killed calls. */
  datatype Capture = Capture(arrivals: seq<A.Arrival>, assembled: seq<A.Arrival>, terminal: string, history: string,
                             predecessor: string, kills: seq<Lease>)

  datatype Setting = Setting(gen: string, admitted: set<string>, digest: A.Authority -> string)

  function TermsOf(c: Capture, previous: string, s: Setting): A.Terms
  {
    A.Terms(s.gen, previous, c.terminal, c.history, c.predecessor)
  }

  /** The first plan assembled against the capture's own manifest. */
  function PlanOf(c: Capture, previous: string, s: Setting): Plan
  {
    var m := A.Build(c.arrivals, TermsOf(c, previous, s), s.digest);
    if m.Err? then AF.NOTHING.plan
    else
      var made := A.Assemble(c.assembled, m.value, s.admitted);
      if made.Err? || made.value == [] then AF.NOTHING.plan else made.value[0].plan
  }

  /** Each manifest starts where the transaction before it committed. */
  function StreamOf(captures: seq<Capture>, previous: string, s: Setting): (r: seq<Delivery>)
    ensures |r| == |captures|
    decreases |captures|
  {
    if captures == [] then []
    else
      var plan := PlanOf(captures[0], previous, s);
      [Delivery(plan, captures[0].kills)] + StreamOf(captures[1..], plan.commitLsn, s)
  }

  /** Every manifest of the chain is built. */
  predicate Builds(captures: seq<Capture>, previous: string, s: Setting)
    decreases |captures|
  {
    captures != [] ==>
      && A.Build(captures[0].arrivals, TermsOf(captures[0], previous, s), s.digest).Ok?
      && Builds(captures[1..], PlanOf(captures[0], previous, s).commitLsn, s)
  }

  /** Well-shaped arrivals of one transaction, assembled in some order. */
  ghost predicate OneTransaction(c: Capture, s: Setting)
  {
    && c.arrivals != [] && multiset(c.assembled) == multiset(c.arrivals) && AF.DistinctIds(c.arrivals)
    && forall e :: e in c.arrivals ==>
         e.tx == c.arrivals[0].tx && A.ShapeFault(e, s.gen, s.admitted) == None && A.ToEvent(e).KeyedByImage()
  }

  lemma {:induction false} OneSeen(events: seq<A.Arrival>, tx: string)
    requires events != [] && forall e :: e in events ==> e.tx == tx
    ensures A.FirstSeen(events) == [tx]
  {
    var front := events[..|events| - 1];
    assert events == front + [events[|events| - 1]];
    if front != [] { OneSeen(front, tx); }
  }

  /** The manifest of one transaction has one descriptor. */
  lemma OneDescriptor(events: seq<A.Arrival>, terms: A.Terms, digest: A.Authority -> string, tx: string)
    requires A.Build(events, terms, digest).Ok? && events != [] && forall e :: e in events ==> e.tx == tx
    ensures |A.Build(events, terms, digest).value.authority.transactions| == 1
  {
    hide A.Build, A.FirstSeen, A.Ordered, A.IntervalFault, Lsn.Normalize, A.OrderKey, A.DescribeAll;
    var sorted := SortBy(events, A.OrderKey);
    AF.BuildOpens(events, terms, digest);
    SortFacts(events, A.OrderKey);
    OneSeen(sorted, tx);
    assert |A.InOrder(sorted)| == |multiset(A.InOrder(sorted))| == 1;
    AF.AllDescribed(sorted, A.InOrder(sorted), |A.InOrder(sorted)|);
  }

  /** What the capture's plan is: its transaction, numbered, starting at the manifest's frontier. */
  ghost predicate PlanFits(c: Capture, previous: string, s: Setting, plan: Plan, rows: seq<A.Arrival>)
  {
    && c.arrivals != [] && Assembled(plan) && plan.gen == s.gen && plan.tx == c.arrivals[0].tx
    && Lsn.Normalize(previous) == Some(plan.previousFrontier)
    && Lsn.Normalize(plan.commitLsn) == Some(plan.commitLsn)
    && plan.events == A.ToEvents(rows) && multiset(rows) == multiset(c.arrivals) && A.Numbered(rows)
  }

  lemma OneAssembly(c: Capture, previous: string, s: Setting) returns (m: A.Manifest, a: A.Assembly)
    requires OneTransaction(c, s) && A.Build(c.arrivals, TermsOf(c, previous, s), s.digest).Ok?
    ensures A.Build(c.arrivals, TermsOf(c, previous, s), s.digest) == A.Ok(m)
    ensures m.authority.gen == s.gen && Lsn.Normalize(previous) == Some(m.authority.previous)
    ensures A.Assemble(c.assembled, m, s.admitted) == A.Ok([a])
    ensures |m.authority.transactions| == 1 && AF.Answers(a, m.authority.transactions[0], m) && A.Numbered(a.rows)
    ensures multiset(a.rows) == multiset(c.arrivals)
  {
    hide A.Build, A.Assemble, A.ShapeFault, AF.Answers, A.Numbered, Lsn.Normalize, A.IntervalFault;
    hide A.Ordered, A.DescribeAll;
    var terms := TermsOf(c, previous, s);
    m := A.Build(c.arrivals, terms, s.digest).value;
    AF.BuildOpens(c.arrivals, terms, s.digest);
    AF.RoundTrip(c.arrivals, c.assembled, terms, s.digest, s.admitted);
    OneDescriptor(c.arrivals, terms, s.digest, c.arrivals[0].tx);
    var made := A.Assemble(c.assembled, m, s.admitted).value;
    a := made[0];
    assert made == [a] && [a][..0] == [];
    assert AF.Rows(made) == AF.Rows([]) + a.rows == a.rows;
  }

  lemma OnePlan(c: Capture, previous: string, s: Setting) returns (rows: seq<A.Arrival>)
    requires OneTransaction(c, s) && A.Build(c.arrivals, TermsOf(c, previous, s), s.digest).Ok?
    ensures PlanFits(c, previous, s, PlanOf(c, previous, s), rows)
  {
    hide A.Build, A.Assemble, A.ShapeFault, Assembled, Lsn.Normalize, A.ToEvents, A.Numbered;
    var m, a := OneAssembly(c, previous, s);
    rows := a.rows;
    assert rows[0] in multiset(c.arrivals);
    CommitIsNormal(rows[|rows| - 1].position);
  }

  lemma CommitIsNormal(position: string)
    requires Lsn.Normalize(position).Some?
    ensures Lsn.Normalize(Lsn.Normalize(position).value) == Lsn.Normalize(position)
  {
    Lsn.NormalizeMeaning(position);
  }

  /** The source-side freshness of captures: transactions and event ids are new, and none is shared. */
  ghost predicate FreshCaptures(w: World, captures: seq<Capture>, gen: string)
  {
    && (forall c :: c in captures && c.arrivals != [] ==> (gen, c.arrivals[0].tx) !in w.control.transactions)
    && (forall c, e :: c in captures && e in c.arrivals ==> (gen, e.id) !in w.control.tombstones)
    && (forall i, j :: 0 <= i < j < |captures| && captures[i].arrivals != [] && captures[j].arrivals != [] ==>
          captures[i].arrivals[0].tx != captures[j].arrivals[0].tx)
    && (forall i, j, d, e :: 0 <= i < j < |captures| && d in captures[i].arrivals && e in captures[j].arrivals ==>
            d.id != e.id)
  }

  /** The plan of each delivery fits its capture, and the plans link up. */
  ghost predicate StreamFits(captures: seq<Capture>, previous: string, s: Setting, stream: seq<Delivery>)
  {
    && |stream| == |captures|
    && (forall i :: 0 <= i < |stream| ==> CaptureOf(captures[i], s, stream[i].plan))
    && (stream != [] ==> Lsn.Normalize(previous) == Some(stream[0].plan.previousFrontier))
    && (forall i :: 0 <= i < |stream| - 1 ==> stream[i + 1].plan.previousFrontier == stream[i].plan.commitLsn)
  }

  ghost predicate CaptureOf(c: Capture, s: Setting, plan: Plan)
  {
    exists previous, rows :: PlanFits(c, previous, s, plan, rows)
  }

  lemma {:induction false} ChainFits(captures: seq<Capture>, previous: string, s: Setting)
    requires Builds(captures, previous, s) && forall c :: c in captures ==> OneTransaction(c, s)
    ensures StreamFits(captures, previous, s, StreamOf(captures, previous, s))
    decreases |captures|
  {
    hide PlanOf, OneTransaction, A.Build, Assembled, Lsn.Normalize, A.Numbered, StreamFits, A.ToEvents;
    if captures != [] {
      var plan := PlanOf(captures[0], previous, s);
      assert captures[0] in captures;
      var rows := OnePlan(captures[0], previous, s);
      ChainFits(captures[1..], plan.commitLsn, s);
      FitsMore(captures, previous, s, plan, rows, StreamOf(captures[1..], plan.commitLsn, s));
    } else {
      assert StreamFits([], previous, s, []) by { NothingFits(previous, s); }
    }
  }

  lemma NothingFits(previous: string, s: Setting)
    ensures StreamFits([], previous, s, [])
  {
  }

  lemma FitsMore(captures: seq<Capture>, previous: string, s: Setting, plan: Plan, rows: seq<A.Arrival>,
                 tail: seq<Delivery>)
    requires captures != [] && PlanFits(captures[0], previous, s, plan, rows)
    requires StreamFits(captures[1..], plan.commitLsn, s, tail)
    ensures StreamFits(captures, previous, s, [Delivery(plan, captures[0].kills)] + tail)
  {
    hide CaptureOf, Assembled, Lsn.Normalize, A.Numbered, A.ToEvents;
    var stream := [Delivery(plan, captures[0].kills)] + tail;
    assert CaptureOf(captures[0], s, plan) by { OwnCapture(captures[0], previous, s, plan, rows); }
    forall i | 0 <= i < |stream| ensures CaptureOf(captures[i], s, stream[i].plan) {
      if i > 0 { assert CaptureOf(captures[1..][i - 1], s, tail[i - 1].plan); }
    }
    forall i | 0 <= i < |stream| - 1 ensures stream[i + 1].plan.previousFrontier == stream[i].plan.commitLsn {
      if i > 0 { assert tail[i - 1 + 1].plan.previousFrontier == tail[i - 1].plan.commitLsn; }
    }
  }

  lemma OwnCapture(c: Capture, previous: string, s: Setting, plan: Plan, rows: seq<A.Arrival>)
    requires PlanFits(c, previous, s, plan, rows)
    ensures CaptureOf(c, s, plan)
  {
  }

  /** The plan's events are its arrivals, each once. */
  lemma EventsAreArrivals(c: Capture, s: Setting, plan: Plan)
    requires OneTransaction(c, s) && CaptureOf(c, s, plan)
    ensures AllKeyed(plan.events)
    ensures forall id :: DeleteIds(plan, id) ==> exists e: A.Arrival :: e in c.arrivals && e.id == id
    ensures Ref.FreshDeletes(Ref.Work(map[], map[]), plan.events)
  {
    hide A.ShapeFault, Assembled, Lsn.Normalize, A.ToEvent, EventsFor;
    var previous: string, rows: seq<A.Arrival> :| PlanFits(c, previous, s, plan, rows);
    forall i | 0 <= i < |rows|
      ensures plan.events[i] == A.ToEvent(rows[i]) && rows[i] in c.arrivals && plan.events[i].id == rows[i].id
    {
      assert rows[i] in multiset(c.arrivals);
      KeepsId(rows[i]);
    }
    forall e | e in plan.events ensures e.KeyedByImage() && exists a: A.Arrival :: a in c.arrivals && a.id == e.id {
      var i :| 0 <= i < |plan.events| && plan.events[i] == e;
      assert rows[i] in c.arrivals;
    }
    forall i, j | 0 <= i < j < |plan.events| ensures plan.events[i].id != plan.events[j].id {
      assert rows[i].sequence != rows[j].sequence && rows[i] in c.arrivals && rows[j] in c.arrivals;
    }
  }

  lemma KeepsId(e: A.Arrival)
    ensures A.ToEvent(e).id == e.id
  {
  }

  /** So captured transactions make a stream that the coordinator can take, its links included. */
  lemma CapturedIsReady(w: World, captures: seq<Capture>, previous: string, s: Setting, rows: Ref.Rows)
    requires Builds(captures, previous, s) && forall c :: c in captures ==> OneTransaction(c, s)
    requires FreshCaptures(w, captures, s.gen)
    requires s.gen in w.control.checkpoints ==> Lsn.Normalize(previous) == Some(w.control.checkpoints[s.gen].frontier)
    ensures StreamReady(w, Ref.Work(rows, map[]), StreamOf(captures, previous, s), s.gen)
  {
    hide Builds, OneTransaction, StreamOf, CaptureOf, Assembled, Lsn.Normalize, AllKeyed, DeleteIds;
    ChainFits(captures, previous, s);
    var stream := StreamOf(captures, previous, s);
    forall d | d in stream ensures Deliverable(w, Ref.Work(rows, map[]), d.plan, s.gen) {
      var i :| 0 <= i < |stream| && stream[i] == d;
      OneIsReady(w, captures, i, s, d.plan, rows);
    }
    forall i, j | 0 <= i < j < |stream| ensures Apart(stream[i].plan, stream[j].plan) {
      TwoAreApart(w, captures, i, j, s, stream[i].plan, stream[j].plan);
    }
  }

  lemma OneIsReady(w: World, captures: seq<Capture>, i: nat, s: Setting, plan: Plan, rows: Ref.Rows)
    requires FreshCaptures(w, captures, s.gen) && i < |captures| && OneTransaction(captures[i], s)
    requires CaptureOf(captures[i], s, plan)
    ensures Deliverable(w, Ref.Work(rows, map[]), plan, s.gen)
  {
    hide Assembled, Lsn.Normalize, AllKeyed, DeleteIds, A.ShapeFault, A.Numbered;
    assert captures[i] in captures;
    EventsAreArrivals(captures[i], s, plan);
    var previous: string, list: seq<A.Arrival> :| PlanFits(captures[i], previous, s, plan, list);
  }

  lemma TwoAreApart(w: World, captures: seq<Capture>, i: nat, j: nat, s: Setting, p: Plan, q: Plan)
    requires FreshCaptures(w, captures, s.gen) && i < j < |captures|
    requires OneTransaction(captures[i], s) && OneTransaction(captures[j], s)
    requires CaptureOf(captures[i], s, p) && CaptureOf(captures[j], s, q)
    ensures Apart(p, q)
  {
    hide Assembled, Lsn.Normalize, AllKeyed, DeleteIds, A.ShapeFault, A.Numbered;
    EventsAreArrivals(captures[i], s, p);
    EventsAreArrivals(captures[j], s, q);
    var previous: string, list: seq<A.Arrival> :| PlanFits(captures[i], previous, s, p, list);
    var previous': string, list': seq<A.Arrival> :| PlanFits(captures[j], previous', s, q, list');
  }

  /** The arrivals say what the source did, each in its place. */
  predicate CapturesOne(arrivals: seq<A.Arrival>, bodies: seq<S.SourceEvent>)
  {
    && |arrivals| == |bodies|
    && forall e :: e in arrivals ==>
         1 <= e.sequence <= |bodies| && SF.Carries(A.ToEvent(e), bodies[e.sequence - 1].body)
  }

  predicate CapturesAll(captures: seq<Capture>, ts: seq<S.Transaction>)
  {
    |captures| == |ts| && forall i :: 0 <= i < |captures| ==> CapturesOne(captures[i].arrivals, ts[i].body.events)
  }

  lemma OneCarries(c: Capture, s: Setting, plan: Plan, bodies: seq<S.SourceEvent>)
    requires CapturesOne(c.arrivals, bodies) && CaptureOf(c, s, plan)
    ensures SF.CarriesAll(plan.events, bodies)
  {
    hide SF.Carries, A.ToEvent, Assembled, Lsn.Normalize;
    var previous: string, rows: seq<A.Arrival> :| PlanFits(c, previous, s, plan, rows);
    assert |rows| == |multiset(rows)| == |multiset(c.arrivals)| == |c.arrivals|;
    forall i | 0 <= i < |plan.events| ensures SF.Carries(plan.events[i], bodies[i].body) {
      assert rows[i] in multiset(c.arrivals);
    }
  }

  /** The transaction touches no row twice. */
  ghost predicate TouchesOnce(bodies: seq<S.SourceEvent>)
  {
    forall i, j :: 0 <= i < j < |bodies| ==>
      (bodies[i].body.table, bodies[i].body.key) != (bodies[j].body.table, bodies[j].body.key)
  }

  lemma CarriedTouches(events: seq<Event>, bodies: seq<S.SourceEvent>)
    requires SF.CarriesAll(events, bodies)
    ensures DistinctRows(events) <==> TouchesOnce(bodies)
  {
  }

  /**
  The captured source reaches the target.  From tables equal to the source at the
  boundary: if the source's replay succeeds, every captured transaction is delivered if
  and only if none touches a row twice, and the tables then hold exactly the source's
  rows; and transactions that touch no row twice are delivered if and only if the
  source's replay succeeds.
  */
  lemma CapturedSourceReachesTarget(spec: S.Workload, applying: set<string>, w: World, captures: seq<Capture>,
                                    previous: string, s: Setting)
    requires S.Replay(spec, S.PRE_BOUNDARY).Ok? && SF.PostFollowsPre(spec.material.transactions)
    requires I.Inv(w) && s.gen in applying && B.Agrees(w.tables, S.Replay(spec, S.PRE_BOUNDARY).value.rows)
    requires s.gen in w.control.checkpoints ==> Lsn.Normalize(previous) == Some(w.control.checkpoints[s.gen].frontier)
    requires CapturesAll(captures, SF.Post(spec.material.transactions))
    requires Builds(captures, previous, s) && (forall c :: c in captures ==> OneTransaction(c, s))
    requires FreshCaptures(w, captures, s.gen)
    ensures var delivered, replayed :=
      Deliver(applying, w, StreamOf(captures, previous, s)), S.Replay(spec, S.POST_BOUNDARY);
      var once := forall t :: t in SF.Post(spec.material.transactions) ==> TouchesOnce(t.body.events);
      && (replayed.Ok? ==> (delivered.Some? <==> once))
      && (delivered.Some? ==> (replayed.Ok? <==> once))
      && (once ==> (delivered.Some? <==> replayed.Ok?))
      && (delivered.Some? && replayed.Ok? ==> B.Agrees(delivered.value.tables, replayed.value.rows))
  {
    hide S.Replay, SF.Post, Deliver, I.Inv, B.Agrees, StreamReady, Builds, OneTransaction, FreshCaptures, TouchesOnce;
    hide DistinctRows, SF.CarriesAll, CaptureOf, CapturesOne, Lsn.Normalize;
    var stream := StreamOf(captures, previous, s);
    var ts := SF.Post(spec.material.transactions);
    CapturedIsReady(w, captures, previous, s, S.Replay(spec, S.PRE_BOUNDARY).value.rows);
    ChainFits(captures, previous, s);
    forall i | 0 <= i < |stream|
      ensures SF.CarriesAll(stream[i].plan.events, ts[i].body.events)
      ensures DistinctRows(stream[i].plan.events) <==> TouchesOnce(ts[i].body.events)
    {
      OneCarries(captures[i], s, stream[i].plan, ts[i].body.events);
      CarriedTouches(stream[i].plan.events, ts[i].body.events);
    }
    assert SF.PlansCarry(Plans(stream), ts);
    TargetEqualsSource(spec, applying, w, stream, s.gen);
    SameOnce(stream, ts);
  }

  lemma SameOnce(stream: seq<Delivery>, ts: seq<S.Transaction>)
    requires |stream| == |ts|
    requires forall i :: 0 <= i < |stream| ==> (DistinctRows(stream[i].plan.events) <==> TouchesOnce(ts[i].body.events))
    ensures AllDistinct(stream) <==> forall t :: t in ts ==> TouchesOnce(t.body.events)
  {
    hide DistinctRows, TouchesOnce;
    if AllDistinct(stream) {
      forall t | t in ts ensures TouchesOnce(t.body.events) {
        var i :| 0 <= i < |ts| && ts[i] == t;
        assert stream[i] in stream;
      }
    }
    if forall t :: t in ts ==> TouchesOnce(t.body.events) {
      forall d | d in stream ensures DistinctRows(d.plan.events) {
        var i :| 0 <= i < |stream| && stream[i] == d;
        assert ts[i] in ts;
      }
    }
  }
}
