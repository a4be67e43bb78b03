/**
Once per transaction and table.  Exactly which restamped plans make a call stop on a
receipt or commit a table a second time, and that a run in which every attempt at a
transaction carries the same stamps does neither.
*/
module CdcOnce {
  import opened Common
  import opened Events
  import opened CdcApply
  import opened CdcConvergence
  import opened CdcInvariant
  import opened CdcRefinement
  import opened CdcRestamp
  import opened CdcSecondCommit
  import T = IcebergCdc
  import C = CdcControl

  /** The first call of the plan, uninterrupted, would succeed. */
  ghost predicate Accepted(applying: set<string>, w: World, p: Plan)
  {
    Ready(applying, w, p) && Apply(applying, w, p, Unlimited).Returned?
  }

  /** An accepted plan's visits run to their end. */
  lemma {:induction false} AcceptedVisits(applying: set<string>, w: World, p: Plan)
    requires Inv(w) && Assembled(p) && Accepted(applying, w, p)
    ensures forall l :: Resumes(applying, w, p, l) <==> l == Unlimited || l.n >= 2
    ensures Inv(Claimed(w, p)) && ClaimedBy(Claimed(w, p), p) && !Checkpointed(Claimed(w, p), p)
    ensures Claimed(w, p).control.checkpoints[p.gen].frontier == p.previousFrontier
    ensures VisitTables(Claimed(w, p), p, p.tables, Unlimited).Continue?
  {
    hide Inv, Assembled, Apply, VisitTables, Finish, ClaimedBy;
    CallOpens(applying, w, p, Unlimited);
    ClaimedKeeps(applying, w, p, Unlimited);
    VisitsAreTables(p);
    VisitsKeep(Claimed(w, p), p, p.tables, Unlimited);
  }

  /** The killed call's claim and frontier let the restamped plan's call get to the tables. */
  lemma {:induction false} RestampResumes(applying: set<string>, w: World, p: Plan, q: Plan, w1: World)
    requires Ready(applying, w, p) && Restamps(p, q) && Grows(Claimed(w, p), w1)
    ensures Resumes(applying, w1, q, Unlimited)
    ensures Claimed(w1, q) == w1
  {
    hide Projections;
  }

  /** A call killed in its visits. */
  lemma {:induction false} KilledInVisits(applying: set<string>, w: World, p: Plan, n: nat)
    requires Assembled(p) && Resumes(applying, w, p, Writes(n + 2))
    ensures var s := VisitTables(Claimed(w, p), p, p.tables, Writes(n));
      && (s.Halt? && s.call.Killed? ==> Apply(applying, w, p, Writes(n + 2)) == s.call)
      && (s.Continue? && s.lease.Spent() ==> Apply(applying, w, p, Writes(n + 2)) == Killed(s.world))
  {
    hide Apply, VisitTables;
    CallOpens(applying, w, p, Writes(n + 2));
    VisitsAreTables(p);
    assert Writes(n + 2).Next().Next() == Writes(n);
  }

  lemma {:induction false} SecondCommitHappens(applying: set<string>, w: World, p: Plan, q: Plan, name: string, k: nat)
    returns (l: Lease)
    requires Inv(w) && Assembled(p) && Accepted(applying, w, p) && AllKeyed(p.events) && Restamps(p, q)
    requires k < |p.tables| && p.tables[k] == name
    requires forall j :: 0 <= j < k ==> EventsFor(p.events, p.tables[j]) == EventsFor(q.events, p.tables[j])
    requires EventsFor(p.events, name) != EventsFor(q.events, name) && NoOps(EventsFor(p.events, name))
    ensures CommitsTwice(applying, w, p, l, q, Unlimited, name)
  {
    hide Inv, Assembled, Ready, Resumes, Apply, VisitTables, EventsFor, Restamps, AllKeyed, NoOps;
    hide Untouched, ClaimedBy, Grows, VisitsCost, T.SnapshotOf;
    var s := Claimed(w, p);
    AcceptedVisits(applying, w, p);
    RestampIsAssembled(p, q);
    SamePlace(p, q);
    DistinctTables(p);
    ReadyIsUnclaimed(applying, w, p);
    UnclaimedIsUntouched(w, p, p.tables);
    UnclaimedIsUntouched(w, q, p.tables);
    UntouchedStays(w, p, s);
    UntouchedStays(w, q, s);
    VisitsCommitTwice(s, p, q, p.tables, k);
    var n := VisitsCost(s, p, p.tables[..k]) + 1;
    l := Writes(n + 2);
    KilledInVisits(applying, w, p, n);
    var w1 := Apply(applying, w, p, l).world;
    RestampResumes(applying, w, p, q, w1);
    CallTables(applying, w1, q, Unlimited);
  }

  lemma ReadyIsUnclaimed(applying: set<string>, w: World, p: Plan)
    requires Ready(applying, w, p)
    ensures C.IdOf(p) !in w.control.transactions
  {
  }

  /**
  The exact condition of a second commit.  Some pair of leases makes the calls of an
  accepted plan and its restamp commit a table twice if and only if it is the first
  table whose stamps differ and its events change nothing.
  */
  lemma {:induction false} SecondCommitIff(applying: set<string>, w: World, p: Plan, q: Plan, name: string)
    requires Inv(w) && Assembled(p) && Accepted(applying, w, p) && AllKeyed(p.events) && Restamps(p, q)
    ensures (exists l, l' :: CommitsTwice(applying, w, p, l, q, l', name)) <==>
      FirstDifference(p, q, p.tables) == Some(name) && NoOps(EventsFor(p.events, name))
  {
    hide Inv, Assembled, EventsFor, Restamps, AllKeyed, NoOps, CommitsTwice, Apply;
    ReadyIsUnclaimed(applying, w, p);
    if l, l' :| CommitsTwice(applying, w, p, l, q, l', name) {
      SecondCommitNeeds(applying, w, p, l, q, l', name);
    }
    if FirstDifference(p, q, p.tables) == Some(name) && NoOps(EventsFor(p.events, name)) {
      var k := FirstDifferenceAt(p, q, p.tables);
      var l := SecondCommitHappens(applying, w, p, q, name, k);
    }
  }

  /** Taking up the first plan's killed call, the second plan's call stops on a receipt. */
  ghost predicate StopsOnReceipt(applying: set<string>, w: World, p: Plan, l: Lease, q: Plan)
  {
    var call := Apply(applying, Apply(applying, w, p, l).world, q, Unlimited);
    call.Raised? && call.code == CB24P002_RECEIPT_MISMATCH
  }

  lemma {:induction false} HeadEvents(a: seq<Event>, name: string)
    requires a != []
    ensures a[0].table == name ==> EventsFor(a, name) != [] && EventsFor(a, name)[0] == a[0]
    ensures EventsFor(a[1..], name) == if a[0].table == name then EventsFor(a, name)[1..] else EventsFor(a, name)
  {
  }

  lemma {:induction false} SomeTableDiffers(a: seq<Event>, b: seq<Event>) returns (name: string)
    requires Projections(a) == Projections(b) && a != b
    ensures name in TablesOf(a) && EventsFor(a, name) != EventsFor(b, name)
  {
    hide Projections, EventsFor;
    assert |Projections(a)| == |a| && |Projections(b)| == |b|;
    ProjectionsSplit(a);
    ProjectionsSplit(b);
    assert a == [a[0]] + a[1..] && b == [b[0]] + b[1..];
    name := a[0].table;
    if a[0] == b[0] { name := SomeTableDiffers(a[1..], b[1..]); }
    HeadEvents(a, name);
    HeadEvents(b, name);
  }

  /** Killed with every receipt stored. */
  lemma {:induction false} KilledBeforeTombstones(applying: set<string>, w: World, p: Plan) returns (l: Lease)
    requires Inv(w) && Assembled(p) && Accepted(applying, w, p)
    ensures var w1 := Apply(applying, w, p, l).world;
      Grows(Claimed(w, p), w1) && forall name :: name in p.tables ==> Receipted(w1, p, name)
  {
    hide Inv, Assembled, Ready, Apply, VisitTables, ClaimedBy, Receipted;
    var s := Claimed(w, p);
    AcceptedVisits(applying, w, p);
    var n := VisitsCost(s, p, p.tables);
    VisitsCostMeans(s, p, p.tables, 0);
    VisitsGrow(s, p, p.tables, Unlimited);
    l := Writes(n + 2);
    KilledInVisits(applying, w, p, n);
  }

  lemma {:induction false} DifferenceIsStale(w: World, p: Plan, q: Plan, name: string)
    requires Restamps(p, q) && Assembled(p) && name in TablesOf(p.events)
    requires EventsFor(p.events, name) != EventsFor(q.events, name)
    requires forall other :: other in p.tables ==> Receipted(w, p, other)
    ensures SomeStale(w, q)
  {
    hide EventsFor, Projections;
    VisitsAreTables(p);
    var k :| 0 <= k < |p.tables| && p.tables[k] == name;
    assert Receipted(w, p, name) && Stale(w, q, q.tables[k]);
  }

  /**
  The exact condition of stopping on a receipt.  Some lease of an accepted plan's call
  makes the restamped plan's call end in CB24P002 if and only if the stamps differ.
  */
  lemma {:induction false} StopsOnReceiptIff(applying: set<string>, w: World, p: Plan, q: Plan)
    requires Inv(w) && InVisitOrder(w.control.receipts)
    requires Assembled(p) && Accepted(applying, w, p) && Restamps(p, q)
    ensures (exists l :: StopsOnReceipt(applying, w, p, l, q)) <==> p.events != q.events
  {
    hide Inv, Assembled, Ready, Apply, InVisitOrder, EventsFor, SomeStale, TablesOf;
    if p.events == q.events {
      assert q == p;
      forall l ensures !StopsOnReceipt(applying, w, p, l, q) { RestartCall(applying, w, p, l); }
    } else {
      RestampIsAssembled(p, q);
      var name := SomeTableDiffers(p.events, q.events);
      var l := KilledBeforeTombstones(applying, w, p);
      var w1 := Apply(applying, w, p, l).world;
      DifferenceIsStale(w1, p, q, name);
      RestampResumes(applying, w, p, q, w1);
      ApplyKeeps(applying, w, p, l);
      CallKeepsOrder(applying, w, p, l);
      MismatchIff(applying, w1, q, Unlimited);
      assert StopsOnReceipt(applying, w, p, l, q);
    }
  }

  /** All attempts at a transaction carry the same events, stamps included. */
  ghost predicate SameStamps(attempts: seq<Attempt>)
  {
    forall a, b ::
      a in attempts && b in attempts && C.IdOf(a.plan) == C.IdOf(b.plan) && a.plan.digest == b.plan.digest ==>
      a.plan.events == b.plan.events
  }

  /** The snapshot is a commit of one of the attempts. */
  ghost predicate SnapshotFrom(attempts: seq<Attempt>, name: string, s: T.Snapshot)
  {
    exists a :: a in attempts && s == T.SnapshotOf(a.plan, name)
  }

  ghost predicate ReceiptFrom(attempts: seq<Attempt>, id: C.ReceiptId, r: C.Receipt)
  {
    exists a ::
      a in attempts && id == ReceiptIdOf(a.plan, id.2) && r.txDigest == a.plan.digest && r.input == a.plan.Input(id.2)
  }

  ghost predicate SnapshotsFrom(attempts: seq<Attempt>, w: World)
  {
    forall name, i :: 0 <= i < |LogOf(w, name)| && LogOf(w, name)[i].token.CommitToken? ==>
      SnapshotFrom(attempts, name, LogOf(w, name)[i])
  }

  ghost predicate ReceiptsFrom(attempts: seq<Attempt>, w: World)
  {
    forall id :: id in w.control.receipts ==> ReceiptFrom(attempts, id, w.control.receipts[id])
  }

  lemma {:induction false} VisitFrom(w: World, attempts: seq<Attempt>, a: Attempt, name: string, lease: Lease)
    requires SnapshotsFrom(attempts, w) && ReceiptsFrom(attempts, w) && a in attempts
    ensures var w' := VisitTable(w, a.plan, name, lease).State();
      SnapshotsFrom(attempts, w') && ReceiptsFrom(attempts, w')
  {
    hide VisitTable, EventsFor, SnapshotFrom, ReceiptFrom, T.SnapshotForToken, T.SnapshotOf, T.Merge, T.BatchAccepted;
    VisitFrame(w, a.plan, name, lease);
    VisitLog(w, a.plan, name, lease);
    VisitReceipt(w, a.plan, name, lease);
    var w' := VisitTable(w, a.plan, name, lease).State();
    OwnSnapshot(attempts, a, name);
    forall other, i | 0 <= i < |LogOf(w', other)| && LogOf(w', other)[i].token.CommitToken?
      ensures SnapshotFrom(attempts, other, LogOf(w', other)[i])
    {
      assert other != name ==> LogOf(w', other) == LogOf(w, other);
      if i < |LogOf(w, other)| { assert LogOf(w', other)[i] == LogOf(w, other)[i]; }
    }
    forall id | id in w'.control.receipts ensures ReceiptFrom(attempts, id, w'.control.receipts[id]) {
      if id !in w.control.receipts { OwnReceipt(attempts, a, name, w'.control.receipts[id]); }
    }
  }

  lemma OwnSnapshot(attempts: seq<Attempt>, a: Attempt, name: string)
    requires a in attempts
    ensures SnapshotFrom(attempts, name, T.SnapshotOf(a.plan, name))
  {
  }

  lemma OwnReceipt(attempts: seq<Attempt>, a: Attempt, name: string, r: C.Receipt)
    requires a in attempts && r.txDigest == a.plan.digest && r.input == a.plan.Input(name)
    ensures ReceiptFrom(attempts, ReceiptIdOf(a.plan, name), r)
  {
  }

  /** A new receipt is the visit's own; the others stay. */
  lemma {:induction false} VisitReceipt(w: World, plan: Plan, name: string, lease: Lease)
    ensures var w' := VisitTable(w, plan, name, lease).State();
      && Grows(w, w')
      && forall id :: id in w'.control.receipts && id !in w.control.receipts ==>
           && id == ReceiptIdOf(plan, name) && w'.control.receipts[id].txDigest == plan.digest
           && w'.control.receipts[id].input == plan.Input(name)
  {
    hide EventsFor, CommitStep, ReceiptStep;
    VisitGrows(w, plan, name, lease);
    CommitKeepsControl(w, plan, name, lease);
    CommitLeavesToken(w, plan, name, lease);
    var commit := CommitStep(w, plan, name, lease);
    if ReceiptIdOf(plan, name) !in w.control.receipts && commit.Continue? {
      ReceiptStepGrows(commit.world, plan, name, commit.lease);
    }
  }

  lemma {:induction false} VisitsFrom(w: World, attempts: seq<Attempt>, a: Attempt, names: seq<string>, lease: Lease)
    requires SnapshotsFrom(attempts, w) && ReceiptsFrom(attempts, w) && a in attempts
    ensures var w' := VisitTables(w, a.plan, names, lease).State();
      SnapshotsFrom(attempts, w') && ReceiptsFrom(attempts, w')
    decreases |names|
  {
    hide VisitTable, SnapshotsFrom, ReceiptsFrom;
    if names != [] {
      VisitFrom(w, attempts, a, names[0], lease);
      var p := VisitTable(w, a.plan, names[0], lease);
      if p.Continue? { VisitsFrom(p.world, attempts, a, names[1..], p.lease); }
    }
  }

  lemma {:induction false} CallFrom(applying: set<string>, w: World, attempts: seq<Attempt>, a: Attempt)
    requires SnapshotsFrom(attempts, w) && ReceiptsFrom(attempts, w) && a in attempts && Assembled(a.plan)
    ensures var w' := Apply(applying, w, a.plan, a.lease).world;
      SnapshotsFrom(attempts, w') && ReceiptsFrom(attempts, w')
  {
    hide Apply, VisitTables, Assembled, SnapshotFrom, ReceiptFrom;
    CallTables(applying, w, a.plan, a.lease);
    var w' := Apply(applying, w, a.plan, a.lease).world;
    if Resumes(applying, w, a.plan, a.lease) {
      var s := Claimed(w, a.plan);
      SameFrom(attempts, w, s);
      VisitsFrom(s, attempts, a, a.plan.tables, a.lease.Next().Next());
      SameFrom(attempts, VisitTables(s, a.plan, a.plan.tables, a.lease.Next().Next()).State(), w');
    } else {
      SameFrom(attempts, w, w');
    }
  }

  lemma SameFrom(attempts: seq<Attempt>, w: World, w': World)
    requires SnapshotsFrom(attempts, w) && ReceiptsFrom(attempts, w)
    requires w'.tables == w.tables && w'.control.receipts == w.control.receipts
    ensures SnapshotsFrom(attempts, w') && ReceiptsFrom(attempts, w')
  {
    hide SnapshotFrom, ReceiptFrom;
    SameTables(w, w');
  }

  lemma {:induction false} RunFrom(applying: set<string>, w: World, all: seq<Attempt>, attempts: seq<Attempt>)
    requires SnapshotsFrom(all, w) && ReceiptsFrom(all, w)
    requires forall a :: a in attempts ==> a in all && Assembled(a.plan)
    ensures var w' := Run(applying, w, attempts); SnapshotsFrom(all, w') && ReceiptsFrom(all, w')
    decreases |attempts|
  {
    hide SnapshotsFrom, ReceiptsFrom, Apply, Assembled;
    if attempts != [] {
      assert attempts[0] in attempts;
      CallFrom(applying, w, all, attempts[0]);
      RunFrom(applying, Apply(applying, w, attempts[0].plan, attempts[0].lease).world, all, attempts[1..]);
    }
  }

  /** Each table has at most one commit of each transaction. */
  ghost predicate OncePerTransaction(w: World)
  {
    forall name, i, j ::
      0 <= i < j < |LogOf(w, name)| && LogOf(w, name)[i].token.CommitToken? && LogOf(w, name)[j].token.CommitToken? ==>
      (LogOf(w, name)[i].gen, LogOf(w, name)[i].tx) != (LogOf(w, name)[j].gen, LogOf(w, name)[j].tx)
  }

  lemma {:induction false} TwoSnapshots(w: World, attempts: seq<Attempt>, name: string, i: nat, j: nat)
    requires Inv(w) && SnapshotsFrom(attempts, w) && SameStamps(attempts)
    requires i < j < |LogOf(w, name)| && LogOf(w, name)[i].token.CommitToken? && LogOf(w, name)[j].token.CommitToken?
    ensures (LogOf(w, name)[i].gen, LogOf(w, name)[i].tx) != (LogOf(w, name)[j].gen, LogOf(w, name)[j].tx)
  {
    hide ReceiptsOk, TransactionsOk, TombstonesOk, EventsFor, Projections, Slice, LogOf;
    var s, t := LogOf(w, name)[i], LogOf(w, name)[j];
    assert LabelOk(w, name, s) && LabelOk(w, name, t);
    assert SnapshotFrom(attempts, name, s) && SnapshotFrom(attempts, name, t);
    var a :| a in attempts && s == T.SnapshotOf(a.plan, name);
    var b :| b in attempts && t == T.SnapshotOf(b.plan, name);
    assert s.token != t.token;
  }

  lemma {:induction false} NothingIsStale(w: World, attempts: seq<Attempt>, a: Attempt)
    requires Inv(w) && ReceiptsFrom(attempts, w) && SameStamps(attempts) && a in attempts
    requires C.IdOf(a.plan) in w.control.transactions ==> w.control.transactions[C.IdOf(a.plan)].digest == a.plan.digest
    ensures !SomeStale(w, a.plan)
  {
    hide LabelsOk, TransactionsOk, TombstonesOk, UniqueTokens, EventsFor, Projections, Slice, LogOf;
    forall k | 0 <= k < |a.plan.tables| ensures !Stale(w, a.plan, a.plan.tables[k]) {
      var id := ReceiptIdOf(a.plan, a.plan.tables[k]);
      if id in w.control.receipts {
        assert ReceiptOk(w, id) && ReceiptFrom(attempts, id, w.control.receipts[id]);
        var b :| b in attempts && id == ReceiptIdOf(b.plan, id.2) && w.control.receipts[id].txDigest == b.plan.digest
          && w.control.receipts[id].input == b.plan.Input(id.2);
        assert C.IdOf(a.plan) == C.IdOf(b.plan) && a.plan.digest == b.plan.digest;
      }
    }
  }

  /**
  While every attempt at a transaction carries the same stamps: each table has at most
  one commit of each transaction, however the calls are killed and repeated, and no
  call, the last one included, stops on a receipt.
  */
  lemma {:induction false} SameStampsCommitOnce(applying: set<string>, start: World, attempts: seq<Attempt>,
                                                last: Attempt)
    requires Start(start) && forall a :: a in attempts + [last] ==> Assembled(a.plan)
    requires SameStamps(attempts + [last])
    ensures OncePerTransaction(Run(applying, start, attempts))
    ensures var call := Apply(applying, Run(applying, start, attempts), last.plan, last.lease);
      call.Raised? ==> call.code != CB24P002_RECEIPT_MISMATCH
  {
    hide Inv, Apply, Run, Assembled, InVisitOrder, SnapshotFrom, SomeStale, Resumes, SameStamps, OncePerTransaction;
    var all, w := attempts + [last], Run(applying, start, attempts);
    assert last in all && forall a :: a in attempts ==> a in all;
    StartIsInv(start);
    assert InVisitOrder(start.control.receipts) by { EmptyInOrder(start); }
    RunKeepsOrder(applying, start, attempts);
    RunFrom(applying, start, all, attempts);
    assert OncePerTransaction(w) by { RunOnce(w, all); }
    MismatchIff(applying, w, last.plan, last.lease);
    if Resumes(applying, w, last.plan, last.lease) {
      ResumesAlike(applying, w, last.plan, last.lease);
      NothingIsStale(w, all, last);
    }
  }

  lemma EmptyInOrder(w: World)
    requires w.control == C.EMPTY
    ensures InVisitOrder(w.control.receipts)
  {
  }

  lemma ResumesAlike(applying: set<string>, w: World, plan: Plan, lease: Lease)
    requires Resumes(applying, w, plan, lease)
    ensures C.IdOf(plan) in w.control.transactions ==> w.control.transactions[C.IdOf(plan)].digest == plan.digest
  {
  }

  lemma {:induction false} RunOnce(w: World, attempts: seq<Attempt>)
    requires Inv(w) && SnapshotsFrom(attempts, w) && SameStamps(attempts)
    ensures OncePerTransaction(w)
  {
    hide Inv, SnapshotsFrom, SameStamps, LogOf;
    forall name, i, j | 0 <= i < j < |LogOf(w, name)|
      && LogOf(w, name)[i].token.CommitToken? && LogOf(w, name)[j].token.CommitToken?
      ensures (LogOf(w, name)[i].gen, LogOf(w, name)[i].tx) != (LogOf(w, name)[j].gen, LogOf(w, name)[j].tx)
    {
      TwoSnapshots(w, attempts, name, i, j);
    }
  }
}
