/**
When a killed call is taken up by a restamped plan: exactly when it stops on a receipt,
exactly when a table is committed a second time, and that neither happens while every
attempt at a transaction carries the same stamps.
*/
module CdcSecondCommit {
  import opened Common
  import opened Sorting
  import opened Events
  import opened CdcApply
  import opened CdcConvergence
  import opened CdcInvariant
  import opened CdcRefinement
  import opened CdcRestamp
  import T = IcebergCdc
  import C = CdcControl

  /** Every event leaves its row as it was. */
  ghost predicate NoOps(events: seq<Event>)
  {
    forall e :: e in events ==> e.change.Update? && e.change.before == e.change.after
  }

  lemma {:induction false} MatchingForgetsStamps(a: seq<Event>, b: seq<Event>, key: string)
    requires Projections(a) == Projections(b)
    ensures |T.Matching(a, key)| == |T.Matching(b, key)|
    decreases |a|
  {
    hide Projections;
    assert |Projections(a)| == |a| && |Projections(b)| == |b|;
    if a != [] {
      ProjectionsSplit(a);
      ProjectionsSplit(b);
      MatchingForgetsStamps(a[1..], b[1..], key);
    }
  }

  lemma {:induction false} ChecksForgetStamps(rows: T.Bag, a: seq<Event>, b: seq<Event>)
    requires Projections(a) == Projections(b)
    ensures T.CheckPreconditions(rows, a) == T.CheckPreconditions(rows, b)
    decreases |a|
  {
    hide Projections;
    assert |Projections(a)| == |a| && |Projections(b)| == |b|;
    if a != [] {
      ProjectionsSplit(a);
      ProjectionsSplit(b);
      ChecksForgetStamps(rows, a[1..], b[1..]);
    }
  }

  /** Acceptance does not look at the stamps. */
  lemma {:induction false} AcceptanceForgetsStamps(rows: T.Bag, a: seq<Event>, b: seq<Event>)
    requires Projections(a) == Projections(b)
    ensures T.BatchAccepted(rows, a) <==> T.BatchAccepted(rows, b)
  {
    hide T.Matching, T.CheckPreconditions;
    assert |Projections(a)| == |a| && |Projections(b)| == |b|;
    ChecksForgetStamps(rows, a, b);
    forall key ensures |T.Matching(a, key)| == |T.Matching(b, key)| { MatchingForgetsStamps(a, b, key); }
  }

  lemma {:induction false} InsertLeavesRow(events: seq<Event>, e: Event)
    requires e in events && e.change.Insert?
    ensures T.Inserted(events) != []
  {
    if events[0] != e { InsertLeavesRow(events[1..], e); }
  }

  lemma {:induction false} MergedAt(rows: T.Bag, events: seq<Event>, e: Event)
    requires AllKeyed(events) && e in events
    ensures e in T.Matching(events, e.key)
    ensures T.At(T.Merge(rows, events), e.key) == T.MergeKey(T.At(rows, e.key), T.Matching(events, e.key))
  {
    hide T.MergeKey, T.Matching;
    assert e.KeyedByImage() && e.key in T.ImageKeys(events);
  }

  lemma {:induction false} AloneAtKey(rows: T.Bag, events: seq<Event>, e: Event)
    requires T.BatchAccepted(rows, events) && AllKeyed(events) && e in events && !e.change.Insert?
    ensures T.At(rows, e.key) == [e.change.before] && T.Matching(events, e.key) == [e]
  {
    hide T.CheckPreconditions, T.Matching;
    assert e.KeyedByImage() && T.CheckEvent(rows, e) == None;
    var own := T.Matching(events, e.key);
    assert e in own;
    assert e.key in rows && rows[e.key] != [];
    assert |own| == 1;
  }

  /** An event is accepted again by the merged table exactly when it changes nothing. */
  lemma {:induction false} EventAgain(rows: T.Bag, events: seq<Event>, e: Event)
    requires T.BatchAccepted(rows, events) && AllKeyed(events) && e in events
    ensures T.CheckEvent(T.Merge(rows, events), e) == None <==> e.change.Update? && e.change.before == e.change.after
    ensures e.change.Update? ==> T.At(rows, e.key) != []
  {
    hide T.CheckPreconditions, T.Inserted, T.Matching, T.MergeAmbiguous, AllKeyed, T.Merge, T.At;
    MergedAt(rows, events, e);
    if e.change.Insert? {
      assert T.CheckEvent(rows, e) == None;
      InsertLeavesRow(T.Matching(events, e.key), e);
    } else {
      AloneAtKey(rows, events, e);
    }
  }

  /** A batch is accepted again by the table it was merged into exactly when it changes nothing. */
  lemma {:induction false} BatchAgain(rows: T.Bag, events: seq<Event>, again: seq<Event>)
    requires T.BatchAccepted(rows, events) && AllKeyed(events) && Projections(again) == Projections(events)
    ensures T.BatchAccepted(T.Merge(rows, events), again) <==> NoOps(events)
  {
    hide T.Matching, T.MergeKey;
    var merged := T.Merge(rows, events);
    AcceptanceForgetsStamps(merged, events, again);
    forall e | e in events
      ensures T.CheckEvent(merged, e) == None <==> e.change.Update? && e.change.before == e.change.after
      ensures e.change.Update? ==> T.At(rows, e.key) != []
    {
      EventAgain(rows, events, e);
    }
    if NoOps(events) {
      forall key ensures |T.Matching(events, key)| <= 1 { OneEachWhenNoOps(rows, events, key); }
    }
  }

  lemma {:induction false} OneEachWhenNoOps(rows: T.Bag, events: seq<Event>, key: string)
    requires T.BatchAccepted(rows, events) && AllKeyed(events) && NoOps(events)
    ensures |T.Matching(events, key)| <= 1
  {
    hide T.Matching, T.CheckPreconditions;
    var own := T.Matching(events, key);
    if own != [] {
      var e := own[0];
      assert e in own && e in events && e.KeyedByImage() && T.CheckEvent(rows, e) == None;
      assert key in rows && rows[key] != [];
    }
  }

  /** The first listed table whose events differ. */
  function FirstDifference(p: Plan, q: Plan, names: seq<string>): Option<string>
  {
    if names == [] then None
    else if EventsFor(p.events, names[0]) != EventsFor(q.events, names[0]) then Some(names[0])
    else FirstDifference(p, q, names[1..])
  }

  lemma {:induction false} FirstDifferenceAt(p: Plan, q: Plan, names: seq<string>) returns (k: nat)
    requires FirstDifference(p, q, names).Some?
    ensures k < |names| && FirstDifference(p, q, names) == Some(names[k])
    ensures EventsFor(p.events, names[k]) != EventsFor(q.events, names[k])
    ensures forall j :: 0 <= j < k ==> EventsFor(p.events, names[j]) == EventsFor(q.events, names[j])
  {
    hide EventsFor;
    if EventsFor(p.events, names[0]) != EventsFor(q.events, names[0]) {
      k := 0;
    } else {
      var i := FirstDifferenceAt(p, q, names[1..]);
      k := i + 1;
      forall j | 0 <= j < k ensures EventsFor(p.events, names[j]) == EventsFor(q.events, names[j]) {
        if j > 0 { assert names[j] == names[1..][j - 1]; }
      }
    }
  }

  /** A visit commits its table at most once. */
  lemma {:induction false} VisitLog(w: World, plan: Plan, name: string, lease: Lease)
    ensures var p := VisitTable(w, plan, name, lease);
      var t, t' := T.TableOf(w.tables, name), T.TableOf(p.State().tables, name);
      && (t' == t || (
            && ReceiptIdOf(plan, name) !in w.control.receipts && T.SnapshotForToken(t.log, plan.Token(name)) == None
            && T.BatchAccepted(t.rows, EventsFor(plan.events, name))
            && t' == T.Table(T.Merge(t.rows, EventsFor(plan.events, name)), t.log + [T.SnapshotOf(plan, name)])))
      && (p.Halt? ==> p.State().control == w.control)
  {
    hide EventsFor, T.SnapshotForToken, T.CheckPreconditions, T.MergeAmbiguous, T.Merge;
    CommitLeavesToken(w, plan, name, lease);
    HaltAddsNoReceipt(w, plan, name, lease);
  }

  lemma {:induction false} VisitsLog(w: World, plan: Plan, names: seq<string>, lease: Lease, name: string)
    requires Distinct(names)
    ensures var w' := VisitTables(w, plan, names, lease).State();
      && (LogOf(w', name) == LogOf(w, name) || LogOf(w', name) == LogOf(w, name) + [T.SnapshotOf(plan, name)])
      && (name !in names ==> T.TableOf(w'.tables, name) == T.TableOf(w.tables, name))
    decreases |names|
  {
    hide VisitTable, T.SnapshotOf, EventsFor, T.Merge, T.BatchAccepted;
    if names != [] {
      VisitLog(w, plan, names[0], lease);
      VisitFrame(w, plan, names[0], lease);
      var p := VisitTable(w, plan, names[0], lease);
      assert names == [names[0]] + names[1..];
      if p.Continue? { VisitsLog(p.world, plan, names[1..], p.lease, name); }
    }
  }

  lemma {:induction false} SameTableEvents(p: Plan, q: Plan, name: string)
    requires Restamps(p, q)
    ensures Projections(EventsFor(q.events, name)) == Projections(EventsFor(p.events, name))
    ensures EventsFor(p.events, name) == EventsFor(q.events, name) <==> p.Input(name) == q.Input(name)
    ensures EventsFor(p.events, name) == EventsFor(q.events, name) <==> p.Token(name) == q.Token(name)
  {
    hide EventsFor, Projections;
    SliceOfProjections(p.events, name);
    SliceOfProjections(q.events, name);
  }

  /** The visits of a restamped plan, in a world where the other plan's receipt of `name` is stored. */
  lemma {:induction false} OverReceipt(w: World, p: Plan, q: Plan, name: string, lease: Lease)
    requires Restamps(p, q) && Receipted(w, p, name)
    ensures VisitTable(w, q, name, lease) ==
      if EventsFor(p.events, name) == EventsFor(q.events, name) then Continue(w, lease)
      else Halt(Raised(w, CB24P002_RECEIPT_MISMATCH))
  {
    hide EventsFor;
    SameTableEvents(p, q, name);
  }

  lemma {:induction false} UntouchedTail(w: World, plan: Plan, names: seq<string>, lease: Lease)
    requires names != [] && Distinct(names) && Untouched(w, plan, names)
    ensures Untouched(VisitTable(w, plan, names[0], lease).State(), plan, names[1..])
  {
    hide VisitTable, EventsFor, T.SnapshotForToken;
    VisitFrame(w, plan, names[0], lease);
    assert names == [names[0]] + names[1..];
  }

  /** The head of the list: the second commit of its table, when the first was left without a receipt. */
  lemma {:induction false} HeadTwice(w: World, p: Plan, q: Plan, names: seq<string>, l: Lease, w1: World, l': Lease)
    requires names != [] && Distinct(names) && Untouched(w, p, names)
    requires Restamps(p, q) && AllKeyed(p.events)
    requires var v := VisitTable(w, p, names[0], l); v.Halt? && w1.tables == v.State().tables
    requires |LogOf(VisitTables(w1, q, names, l').State(), names[0])| >= |LogOf(w, names[0])| + 2
    ensures FirstDifference(p, q, names) == Some(names[0]) && NoOps(EventsFor(p.events, names[0]))
  {
    hide VisitTable, EventsFor, Restamps, Untouched, AllKeyed, T.SnapshotForToken, T.BatchAccepted, T.Merge, NoOps;
    var head := names[0];
    assert names == [head] + names[1..];
    VisitLog(w, p, head, l);
    VisitLog(w1, q, head, l');
    var v' := VisitTable(w1, q, head, l');
    if v'.Continue? { VisitsLog(v'.world, q, names[1..], v'.lease, head); }
    SameTableEvents(p, q, head);
    var t := T.TableOf(w1.tables, head);
    assert |t.log| == |LogOf(w, head)| + 1;
    assert t.log[|t.log| - 1] == T.SnapshotOf(p, head);
    TableEventsKeyed(p.events, head);
    BatchAgain(RowsOf(w, head), EventsFor(p.events, head), EventsFor(q.events, head));
  }

  lemma TableEventsKeyed(events: seq<Event>, name: string)
    requires AllKeyed(events)
    ensures AllKeyed(EventsFor(events, name))
  {
  }

  /** If one plan's visits followed by the other's commit a table twice: which table, and what events. */
  lemma {:induction false} TwiceNeeds(w: World, p: Plan, q: Plan, names: seq<string>, l: Lease, w1: World, l': Lease,
                                      name: string)
    requires Distinct(names) && Untouched(w, p, names)
    requires Restamps(p, q) && AllKeyed(p.events)
    requires var s := VisitTables(w, p, names, l).State();
      w1.tables == s.tables && w1.control.receipts == s.control.receipts
    requires |LogOf(VisitTables(w1, q, names, l').State(), name)| >= |LogOf(w, name)| + 2
    ensures FirstDifference(p, q, names) == Some(name) && NoOps(EventsFor(p.events, name))
    decreases |names|
  {
    hide VisitTable, EventsFor, Restamps, Untouched, AllKeyed, Receipted, NoOps;
    VisitsLog(w1, q, names, l', name);
    VisitsLog(w, p, names, l, name);
    if names != [] {
      var head, tail := names[0], names[1..];
      assert names == [head] + tail;
      var v := VisitTable(w, p, head, l);
      VisitFrame(w, p, head, l);
      if v.Continue? {
        HeadReceiptStays(w, p, head, tail, l, w1);
        OverReceipt(w1, p, q, head, l');
        if EventsFor(p.events, head) == EventsFor(q.events, head) {
          VisitsLog(w1, q, tail, l', name);
          if name != head {
            UntouchedTail(w, p, names, l);
            TwiceNeeds(v.world, p, q, tail, v.lease, w1, l', name);
          }
        }
      } else if name == head {
        HeadTwice(w, p, q, names, l, w1, l');
      }
    }
  }

  lemma {:induction false} HeadReceiptStays(w: World, p: Plan, head: string, tail: seq<string>, l: Lease, w1: World)
    requires var v := VisitTable(w, p, head, l);
      v.Continue? && w1.control.receipts == VisitTables(v.world, p, tail, v.lease).State().control.receipts
    ensures Receipted(w1, p, head)
  {
    hide VisitTable, VisitTables, EventsFor;
    var v := VisitTable(w, p, head, l);
    VisitGrows(w, p, head, l);
    VisitsGrow(v.world, p, tail, v.lease);
  }

  /** What a call does to tables and receipts is what its visits do. */
  lemma {:induction false} CallTables(applying: set<string>, w: World, plan: Plan, lease: Lease)
    requires Assembled(plan)
    ensures var w' := Apply(applying, w, plan, lease).world;
      if Resumes(applying, w, plan, lease) then
        var s := VisitTables(Claimed(w, plan), plan, plan.tables, lease.Next().Next()).State();
        w'.tables == s.tables && w'.control.receipts == s.control.receipts
      else w'.tables == w.tables && w'.control.receipts == w.control.receipts
  {
    hide Apply, VisitTables, Finish;
    CallOpens(applying, w, plan, lease);
    if Resumes(applying, w, plan, lease) {
      VisitsAreTables(plan);
      var w2 := Claimed(w, plan);
      var p := VisitTables(w2, plan, plan.tables, lease.Next().Next());
      if p.Continue? { FinishFrame(p.world, plan, w2.control.checkpoints[plan.gen].revision, p.lease); }
    }
  }

  /** The table is committed by both plans. */
  ghost predicate CommitsTwice(applying: set<string>, w: World, p: Plan, l: Lease, q: Plan, l': Lease, name: string)
  {
    LogOf(Apply(applying, Apply(applying, w, p, l).world, q, l').world, name)
      == LogOf(w, name) + [T.SnapshotOf(p, name), T.SnapshotOf(q, name)]
  }

  lemma {:induction false} SecondCommitNeeds(applying: set<string>, w: World, p: Plan, l: Lease, q: Plan, l': Lease,
                                             name: string)
    requires Inv(w) && Assembled(p) && C.IdOf(p) !in w.control.transactions && AllKeyed(p.events) && Restamps(p, q)
    requires CommitsTwice(applying, w, p, l, q, l', name)
    ensures FirstDifference(p, q, p.tables) == Some(name) && NoOps(EventsFor(p.events, name))
  {
    hide Inv, Assembled, Apply, VisitTables, Restamps, AllKeyed, NoOps, FirstDifference, Untouched;
    RestampIsAssembled(p, q);
    SamePlace(p, q);
    VisitsAreTables(p);
    DistinctTables(p);
    UnclaimedIsUntouched(w, p, p.tables);
    CallTables(applying, w, p, l);
    var w1 := Apply(applying, w, p, l).world;
    CallTables(applying, w1, q, l');
    var s1 := Claimed(w1, q);
    if Resumes(applying, w1, q, l') { VisitsLog(s1, q, p.tables, l'.Next().Next(), name); }
    if Resumes(applying, w, p, l) {
      var s := Claimed(w, p);
      VisitsLog(s, p, p.tables, l.Next().Next(), name);
      assert Untouched(s, p, p.tables) by { UntouchedStays(w, p, s); }
      TwiceNeeds(s, p, q, p.tables, l.Next().Next(), s1, l'.Next().Next(), name);
    }
  }

  lemma SamePlace(p: Plan, q: Plan)
    requires Restamps(p, q)
    ensures q.gen == p.gen && q.tx == p.tx && q.tables == p.tables && q.digest == p.digest
    ensures q.previousFrontier == p.previousFrontier
  {
  }

  lemma DistinctTables(p: Plan)
    requires Assembled(p)
    ensures Distinct(p.tables)
  {
  }

  lemma UntouchedStays(w: World, plan: Plan, w': World)
    requires Untouched(w, plan, plan.tables) && w'.tables == w.tables && w'.control.receipts == w.control.receipts
    ensures Untouched(w', plan, plan.tables)
  {
  }

  /** How many durable writes a complete visit makes. */
  function VisitCost(w: World, plan: Plan, name: string): nat
  {
    if ReceiptIdOf(plan, name) in w.control.receipts then 0
    else if T.SnapshotForToken(LogOf(w, name), plan.Token(name)).Some? then 1
    else 2
  }

  function VisitsCost(w: World, plan: Plan, names: seq<string>): nat
    decreases |names|
  {
    if names == [] then 0
    else
      var rest := match VisitTable(w, plan, names[0], Unlimited)
        case Halt(_) => 0
        case Continue(w1, _) => VisitsCost(w1, plan, names[1..]);
      VisitCost(w, plan, names[0]) + rest
  }

  lemma {:induction false} VisitCostMeans(w: World, plan: Plan, name: string, k: nat)
    requires VisitTable(w, plan, name, Unlimited).Continue?
    ensures VisitTable(w, plan, name, Writes(VisitCost(w, plan, name) + k))
         == Continue(VisitTable(w, plan, name, Unlimited).world, Writes(k))
  {
    hide EventsFor, T.ApplyTable, T.SnapshotForToken;
    CommitLeavesToken(w, plan, name, Unlimited);
    CommitLeavesToken(w, plan, name, Writes(VisitCost(w, plan, name) + k));
  }

  /** A lease of that many writes lets the visits end, and no more. */
  lemma {:induction false} VisitsCostMeans(w: World, plan: Plan, names: seq<string>, k: nat)
    requires VisitTables(w, plan, names, Unlimited).Continue?
    ensures VisitTables(w, plan, names, Writes(VisitsCost(w, plan, names) + k))
         == Continue(VisitTables(w, plan, names, Unlimited).world, Writes(k))
    decreases |names|
  {
    hide VisitTable, VisitCost;
    if names != [] {
      var p := VisitTable(w, plan, names[0], Unlimited);
      VisitLease(w, plan, names[0]);
      VisitsCostMeans(p.world, plan, names[1..], k);
      VisitCostMeans(w, plan, names[0], VisitsCost(p.world, plan, names[1..]) + k);
    }
  }

  lemma {:induction false} VisitLease(w: World, plan: Plan, name: string)
    ensures var p := VisitTable(w, plan, name, Unlimited); p.Continue? ==> p.lease == Unlimited
  {
    hide EventsFor, T.ApplyTable, T.SnapshotForToken;
    CommitLeavesToken(w, plan, name, Unlimited);
  }

  lemma {:induction false} VisitsAppend(w: World, plan: Plan, a: seq<string>, b: seq<string>, l: Lease)
    ensures VisitTables(w, plan, a + b, l) ==
      match VisitTables(w, plan, a, l)
      case Halt(call) => Halt(call)
      case Continue(w1, l1) => VisitTables(w1, plan, b, l1)
    decreases |a|
  {
    hide VisitTable;
    if a == [] {
      assert a + b == b;
    } else {
      assert (a + b)[0] == a[0] && (a + b)[1..] == a[1..] + b;
      var p := VisitTable(w, plan, a[0], l);
      if p.Continue? { VisitsAppend(p.world, plan, a[1..], b, p.lease); }
    }
  }

  /** A call killed between the commit of a table and its receipt. */
  lemma {:induction false} KilledAtReceipt(w: World, p: Plan, name: string)
    requires Untouched(w, p, [name]) && VisitTable(w, p, name, Unlimited).Continue?
    ensures var v := VisitTable(w, p, name, Writes(1));
      && v.Halt? && v.call.Killed? && v.State().control == w.control
      && T.BatchAccepted(RowsOf(w, name), EventsFor(p.events, name))
      && T.TableOf(v.State().tables, name) ==
           T.Table(T.Merge(RowsOf(w, name), EventsFor(p.events, name)), LogOf(w, name) + [T.SnapshotOf(p, name)])
      && forall other :: other != name ==> T.TableOf(v.State().tables, other) == T.TableOf(w.tables, other)
  {
    hide EventsFor, T.SnapshotForToken, T.CheckPreconditions, T.Merge, T.MergeAmbiguous;
    assert name in [name];
    CommitLeavesToken(w, p, name, Unlimited);
    CommitLeavesToken(w, p, name, Writes(1));
  }

  /** The other plan then commits the table again, if its events change nothing. */
  lemma {:induction false} CommitsAgain(w: World, p: Plan, q: Plan, name: string, w1: World)
    requires Restamps(p, q) && EventsFor(p.events, name) != EventsFor(q.events, name)
    requires AllKeyed(p.events) && NoOps(EventsFor(p.events, name))
    requires Untouched(w, q, [name]) && T.BatchAccepted(RowsOf(w, name), EventsFor(p.events, name))
    requires w1.control.receipts == w.control.receipts
    requires T.TableOf(w1.tables, name) ==
               T.Table(T.Merge(RowsOf(w, name), EventsFor(p.events, name)), LogOf(w, name) + [T.SnapshotOf(p, name)])
    ensures LogOf(VisitTable(w1, q, name, Unlimited).State(), name) == LogOf(w1, name) + [T.SnapshotOf(q, name)]
  {
    hide EventsFor, T.SnapshotForToken, T.BatchAccepted, T.Merge, NoOps, AllKeyed, VisitTable, Restamps, Untouched;
    assert T.BatchAccepted(RowsOf(w1, name), EventsFor(q.events, name)) by {
      SameTableEvents(p, q, name);
      TableEventsKeyed(p.events, name);
      BatchAgain(RowsOf(w, name), EventsFor(p.events, name), EventsFor(q.events, name));
    }
    NotYetCommitted(w, p, q, name, w1);
    FreshVisitCommits(w1, q, name);
  }

  lemma {:induction false} NotYetCommitted(w: World, p: Plan, q: Plan, name: string, w1: World)
    requires Restamps(p, q) && EventsFor(p.events, name) != EventsFor(q.events, name)
    requires Untouched(w, q, [name]) && w1.control.receipts == w.control.receipts
    requires LogOf(w1, name) == LogOf(w, name) + [T.SnapshotOf(p, name)]
    ensures Untouched(w1, q, [name])
  {
    hide EventsFor, T.SnapshotForToken, Restamps, LogOf;
    assert name in [name];
    SameTableEvents(p, q, name);
    TokenStaysAbsent(LogOf(w, name), T.SnapshotOf(p, name), q.Token(name));
  }

  lemma {:induction false} TokenStaysAbsent(log: seq<T.Snapshot>, s: T.Snapshot, token: Digest)
    requires T.SnapshotForToken(log, token) == None && s.token != token
    ensures T.SnapshotForToken(log + [s], token) == None
  {
    hide T.SnapshotForToken;
    forall i | 0 <= i < |log + [s]| ensures (log + [s])[i].token != token {}
  }

  lemma {:induction false} FreshVisitCommits(w: World, plan: Plan, name: string)
    requires Untouched(w, plan, [name]) && T.BatchAccepted(RowsOf(w, name), EventsFor(plan.events, name))
    ensures LogOf(VisitTable(w, plan, name, Unlimited).State(), name) == LogOf(w, name) + [T.SnapshotOf(plan, name)]
  {
    hide EventsFor, T.SnapshotForToken, T.CheckPreconditions, T.Merge, T.MergeAmbiguous;
    assert name in [name];
    CommitLeavesToken(w, plan, name, Unlimited);
  }

  /** The tables up to the first difference are skipped, and that one is committed twice. */
  lemma {:induction false} VisitsCommitTwice(w: World, p: Plan, q: Plan, names: seq<string>, k: nat)
    requires k < |names| && Distinct(names) && Untouched(w, p, names)
    requires Restamps(p, q) && AllKeyed(p.events)
    requires VisitTables(w, p, names, Unlimited).Continue?
    requires forall j :: 0 <= j < k ==> EventsFor(p.events, names[j]) == EventsFor(q.events, names[j])
    requires EventsFor(p.events, names[k]) != EventsFor(q.events, names[k])
    requires NoOps(EventsFor(p.events, names[k])) && Untouched(w, q, names)
    ensures var s := VisitTables(w, p, names, Writes(VisitsCost(w, p, names[..k]) + 1));
      && s.Halt? && s.call.Killed? && Grows(w, s.State())
      && LogOf(VisitTables(s.State(), q, names, Unlimited).State(), names[k])
           == LogOf(w, names[k]) + [T.SnapshotOf(p, names[k]), T.SnapshotOf(q, names[k])]
  {
    hide VisitTable, VisitTables, EventsFor, Restamps, AllKeyed, NoOps, VisitsCost, T.BatchAccepted;
    hide T.SnapshotOf, T.Merge;
    hide Distinct, Untouched, Receipted;
    var front, name, rest := names[..k], names[k], names[k + 1..];
    SplitAt(names, k);
    VisitsAppend(w, p, front, [name] + rest, Unlimited);
    VisitsCostMeans(w, p, front, 1);
    VisitsAppend(w, p, front, [name] + rest, Writes(VisitsCost(w, p, front) + 1));
    var wk := VisitTables(w, p, front, Unlimited).world;
    SamePlace(p, q);
    VisitsStayUntouched(w, p, p, names, k);
    VisitsStayUntouched(w, p, q, names, k);
    VisitsLog(w, p, front, Unlimited, name);
    VisitsGrow(w, p, front, Unlimited);
    OneVisit(wk, p, name, rest, Writes(1));
    VisitsUnlimited(w, p, front);
    OneVisit(wk, p, name, rest, Unlimited);
    KilledAtReceipt(wk, p, name);
    var w1 := VisitTable(wk, p, name, Writes(1)).State();
    forall other | other in front ensures Receipted(w1, q, other) {
      SameReceipt(wk, p, q, other, w1, front);
    }
    ReceiptedIsSkipped(w1, q, front, Unlimited);
    VisitsAppend(w1, q, front, [name] + rest, Unlimited);
    OneVisit(w1, q, name, rest, Unlimited);
    CommitsAgain(wk, p, q, name, w1);
    var v := VisitTable(w1, q, name, Unlimited);
    if v.Continue? { VisitsLog(v.world, q, rest, v.lease, name); }
  }

  lemma {:induction false} SplitAt(names: seq<string>, k: nat)
    requires k < |names| && Distinct(names)
    ensures names == names[..k] + ([names[k]] + names[k + 1..])
    ensures Distinct(names[..k]) && Distinct(names[k + 1..]) && names[k] !in names[..k] && names[k] !in names[k + 1..]
  {
  }

  lemma {:induction false} OneVisit(w: World, plan: Plan, name: string, rest: seq<string>, l: Lease)
    ensures VisitTables(w, plan, [name] + rest, l) ==
      match VisitTable(w, plan, name, l)
      case Halt(call) => Halt(call)
      case Continue(w1, l1) => VisitTables(w1, plan, rest, l1)
  {
    hide VisitTable;
    assert ([name] + rest)[0] == name && ([name] + rest)[1..] == rest;
  }

  lemma {:induction false} VisitsUnlimited(w: World, plan: Plan, names: seq<string>)
    ensures var p := VisitTables(w, plan, names, Unlimited); p.Continue? ==> p.lease == Unlimited
    decreases |names|
  {
    hide VisitTable;
    if names != [] {
      var p := VisitTable(w, plan, names[0], Unlimited);
      VisitLease(w, plan, names[0]);
      if p.Continue? { VisitsUnlimited(p.world, plan, names[1..]); }
    }
  }

  lemma {:induction false} SameReceipt(w: World, p: Plan, q: Plan, name: string, w1: World, front: seq<string>)
    requires Restamps(p, q) && name in front && EventsFor(p.events, name) == EventsFor(q.events, name)
    requires Receipted(w, p, name) && w1.control == w.control
    ensures Receipted(w1, q, name)
  {
    hide EventsFor, Projections;
  }

  /** What visits of the first tables leave untouched. */
  lemma {:induction false} VisitsStayUntouched(w: World, visitor: Plan, plan: Plan, names: seq<string>, k: nat)
    requires k < |names| && Distinct(names) && Untouched(w, plan, names) && visitor.gen == plan.gen
    requires visitor.tx == plan.tx
    ensures Untouched(VisitTables(w, visitor, names[..k], Unlimited).State(), plan, [names[k]])
  {
    hide VisitTables, VisitTable, EventsFor, T.SnapshotForToken;
    SplitAt(names, k);
    VisitsLog(w, visitor, names[..k], Unlimited, names[k]);
    VisitsReceipts(w, visitor, names[..k], Unlimited);
    assert names[k] in names;
  }

  lemma {:induction false} VisitsReceipts(w: World, plan: Plan, names: seq<string>, lease: Lease)
    ensures forall id :: id in VisitTables(w, plan, names, lease).State().control.receipts ==>
      id in w.control.receipts || (id.2 in names && id == ReceiptIdOf(plan, id.2))
    decreases |names|
  {
    hide VisitTable;
    if names != [] {
      VisitFrame(w, plan, names[0], lease);
      var p := VisitTable(w, plan, names[0], lease);
      assert names == [names[0]] + names[1..];
      if p.Continue? { VisitsReceipts(p.world, plan, names[1..], p.lease); }
    }
  }
}
