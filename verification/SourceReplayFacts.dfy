/**
Snapshot plus changes equals source: what replaying a whole workload gives is what the
reference store and the engine reach from the state at the boundary and the
transactions committed after it.
*/
module SourceReplayFacts {
  import opened Common
  import opened Sorting
  import opened Events
  import opened SourceReplay
  import Ref = ReferenceCdc
  import Eng = Engine
  import EngineFacts

  function Ordinals(ts: seq<Transaction>): set<int>
  {
    set t | t in ts && t.body.commit.Some? :: t.body.commit.value
  }

  ghost predicate Apart(t: Transaction, u: Transaction)
  {
    && t.body.id != u.body.id && t.body.sequence != u.body.sequence
    && (Commits(t) && Commits(u) ==> t.body.commit != u.body.commit)
  }

  ghost predicate Planned(t: Transaction)
  {
    && t.body.outcome in {"COMMIT", "ABORT"} && t.body.events != []
    && (Commits(t) <==> t.body.commit.Some?) && (Commits(t) ==> t.body.commit.value > 0)
    && t.body.phase in {"PRE_BOUNDARY", "POST_BOUNDARY"}
  }

  /** Ids, sequence numbers and commit ordinals are never repeated. */
  ghost predicate WellPlanned(ts: seq<Transaction>)
  {
    && (forall t :: t in ts ==> Planned(t))
    && (forall i, j :: 0 <= i < j < |ts| ==> Apart(ts[i], ts[j]))
  }

  ghost predicate Unseen(t: Transaction, seen: Seen)
  {
    && t.body.id !in seen.ids && t.body.sequence !in seen.sequences
    && (t.body.commit.Some? ==> t.body.commit.value !in seen.commits)
  }

  lemma {:induction false} ScanUnseen(ts: seq<Transaction>, seen: Seen)
    requires Scan(ts, seen).Ok?
    ensures forall t :: t in ts ==> Planned(t) && Unseen(t, seen)
    ensures Scan(ts, seen).value.commits == seen.commits + Ordinals(ts)
    decreases |ts|
  {
    if ts != [] {
      var head, tail := ts[0], ts[1..];
      assert ts == [head] + tail;
      ScanUnseen(tail, After(head, seen));
      assert Ordinals(ts) == (if head.body.commit.Some? then {head.body.commit.value} else {}) + Ordinals(tail);
    }
  }

  lemma {:induction false} ScanApart(ts: seq<Transaction>, seen: Seen)
    requires Scan(ts, seen).Ok?
    ensures forall i, j :: 0 <= i < j < |ts| ==> Apart(ts[i], ts[j])
    decreases |ts|
  {
    if ts != [] {
      var head, tail := ts[0], ts[1..];
      ScanUnseen(ts, seen);
      ScanUnseen(tail, After(head, seen));
      ScanApart(tail, After(head, seen));
      forall i, j | 0 <= i < j < |ts| ensures Apart(ts[i], ts[j]) {
        assert ts[j] == tail[j - 1] && ts[j] in tail;
        assert i > 0 ==> ts[i] == tail[i - 1];
        assert Unseen(ts[j], After(head, seen)) && Planned(head) && Planned(ts[j]);
      }
    }
  }

  /** An accepted workload commits each ordinal from one to the number of commits exactly once. */
  lemma AcceptedIsWellPlanned(spec: Workload)
    requires Fault(spec) == None
    ensures WellPlanned(spec.material.transactions)
    ensures Ordinals(spec.material.transactions) == UpTo(|Ordinals(spec.material.transactions)|)
  {
    ScanUnseen(spec.material.transactions, NOTHING);
    ScanApart(spec.material.transactions, NOTHING);
  }

  lemma {:induction false} FilteredMeans(ts: seq<Transaction>, keep: Transaction -> bool)
    ensures forall t :: t in Filtered(ts, keep) <==> t in ts && keep(t)
  {
    if ts != [] {
      assert ts == ts[..|ts| - 1] + [ts[|ts| - 1]];
      FilteredMeans(ts[..|ts| - 1], keep);
    }
  }

  lemma {:induction false} FilteredCounts(ts: seq<Transaction>, keep: Transaction -> bool, t: Transaction)
    ensures multiset(Filtered(ts, keep))[t] == if keep(t) then multiset(ts)[t] else 0
  {
    if ts != [] {
      assert ts == ts[..|ts| - 1] + [ts[|ts| - 1]];
      FilteredCounts(ts[..|ts| - 1], keep, t);
    }
  }

  lemma {:induction false} FilteredSorted(ts: seq<Transaction>, keep: Transaction -> bool)
    requires Sorted(ts, CommitKey)
    ensures Sorted(Filtered(ts, keep), CommitKey)
  {
    hide CommitKey, Le;
    if ts != [] {
      var front, last := ts[..|ts| - 1], ts[|ts| - 1];
      FilteredSorted(front, keep);
      FilteredMeans(front, keep);
      var f := Filtered(front, keep);
      forall i | 0 <= i < |f| ensures Le(CommitKey(f[i]), CommitKey(last)) {
        assert f[i] in f && f[i] in front;
        var k :| 0 <= k < |front| && front[k] == f[i];
        assert ts[k] == f[i];
      }
    }
  }

  /** Aborted transactions do not matter. */
  lemma {:induction false} ReplayCommitted(rows: Rows, ts: seq<Transaction>)
    ensures ReplayAll(rows, Filtered(ts, Commits)) == ReplayAll(rows, ts)
    decreases |ts|
  {
    if ts != [] {
      var front, last := ts[..|ts| - 1], ts[|ts| - 1];
      assert ts == front + [last];
      ReplayCommitted(rows, front);
      ReplayJoins(rows, front, [last]);
      var tail := if Commits(last) then [last] else [];
      ReplayJoins(rows, Filtered(front, Commits), tail);
      forall r: Rows ensures ReplayAll(r, tail) == ReplayAll(r, [last]) {
        assert [last][1..] == [];
      }
    }
  }

  lemma {:induction false} ReplayJoins(rows: Rows, a: seq<Transaction>, b: seq<Transaction>)
    ensures ReplayAll(rows, a + b) ==
              (match ReplayAll(rows, a) case Err(code) => Err(code) case Ok(rows') => ReplayAll(rows', b))
    decreases |a|
  {
    if a == [] {
      assert a + b == b;
    } else {
      assert (a + b)[0] == a[0] && (a + b)[1..] == a[1..] + b;
      if !Commits(a[0]) {
        ReplayJoins(rows, a[1..], b);
      } else if ReplayEvents(rows, a[0].body.events).Ok? {
        ReplayJoins(ReplayEvents(rows, a[0].body.events).value, a[1..], b);
      }
    }
  }

  /** The transactions committed after the boundary, in commit order. */
  function Post(ts: seq<Transaction>): seq<Transaction>
  {
    SortBy(Filtered(ts, t => Commits(t) && t.body.phase == "POST_BOUNDARY"), CommitKey)
  }

  ghost predicate PostFollowsPre(ts: seq<Transaction>)
  {
    forall t, u :: t in ts && u in ts && Commits(t) && Commits(u) && t.body.phase == "PRE_BOUNDARY" &&
                   u.body.phase == "POST_BOUNDARY" && t.body.commit.Some? && u.body.commit.Some? ==>
      t.body.commit.value < u.body.commit.value
  }

  /** The committed transactions of an accepted workload, each with its own ordinal. */
  ghost predicate Own(s: seq<Transaction>, ts: seq<Transaction>)
  {
    forall t :: t in s ==> t in ts && Commits(t)
  }

  lemma OrdinalsTellApart(ts: seq<Transaction>, s: seq<Transaction>)
    requires WellPlanned(ts) && Own(s, ts)
    ensures InjectiveOn(s, CommitKey)
  {
    forall t, u | t in s && u in s && CommitKey(t) == CommitKey(u) ensures t == u {
      assert Planned(t) && Planned(u);
      var i :| 0 <= i < |ts| && ts[i] == t;
      var j :| 0 <= j < |ts| && ts[j] == u;
      assert CommitKey(t)[0] == CommitKey(u)[0];
      assert i < j ==> Apart(ts[i], ts[j]);
      assert j < i ==> Apart(ts[j], ts[i]);
    }
  }

  lemma CommittedIsSorted(spec: Workload, phase: Phase)
    ensures Sorted(Filtered(Eligible(spec, phase), Commits), CommitKey)
    ensures forall t :: multiset(Filtered(Eligible(spec, phase), Commits))[t] ==
              if Commits(t) && Within(t, phase) then multiset(spec.material.transactions)[t] else 0
    ensures Own(Filtered(Eligible(spec, phase), Commits), spec.material.transactions)
    ensures forall t :: t in Filtered(Eligible(spec, phase), Commits) ==> Within(t, phase)
  {
    var ts := spec.material.transactions;
    var within := t => Within(t, phase);
    SortFacts(Filtered(ts, within), CommitKey);
    FilteredSorted(Eligible(spec, phase), Commits);
    FilteredMeans(ts, within);
    FilteredMeans(Eligible(spec, phase), Commits);
    forall t ensures multiset(Filtered(Eligible(spec, phase), Commits))[t] ==
                       if Commits(t) && Within(t, phase) then multiset(ts)[t] else 0
    {
      FilteredCounts(ts, within, t);
      FilteredCounts(Eligible(spec, phase), Commits, t);
    }
  }

  lemma PostIsSorted(ts: seq<Transaction>)
    ensures Sorted(Post(ts), CommitKey) && Own(Post(ts), ts)
    ensures forall t :: t in Post(ts) ==> t.body.phase == "POST_BOUNDARY"
    ensures forall t :: multiset(Post(ts))[t] ==
              if Commits(t) && t.body.phase == "POST_BOUNDARY" then multiset(ts)[t] else 0
  {
    var keep := (t: Transaction) => Commits(t) && t.body.phase == "POST_BOUNDARY";
    SortFacts(Filtered(ts, keep), CommitKey);
    FilteredMeans(ts, keep);
    forall t ensures multiset(Post(ts))[t] ==
                       if Commits(t) && t.body.phase == "POST_BOUNDARY" then multiset(ts)[t] else 0
    {
      FilteredCounts(ts, keep, t);
    }
  }

  /** The committed transactions are those of the snapshot followed by those after it. */
  lemma SplitAtBoundary(spec: Workload)
    requires Fault(spec) == None && PostFollowsPre(spec.material.transactions)
    ensures Filtered(Eligible(spec, POST_BOUNDARY), Commits) ==
              Filtered(Eligible(spec, PRE_BOUNDARY), Commits) + Post(spec.material.transactions)
  {
    hide Eligible, Fault, Filtered, Post, Commits;
    var ts := spec.material.transactions;
    var all, pre, post :=
      Filtered(Eligible(spec, POST_BOUNDARY), Commits), Filtered(Eligible(spec, PRE_BOUNDARY), Commits), Post(ts);
    AcceptedIsWellPlanned(spec);
    CommittedIsSorted(spec, POST_BOUNDARY);
    CommittedIsSorted(spec, PRE_BOUNDARY);
    PostIsSorted(ts);
    OrdinalsTellApart(ts, all);
    assert Sorted(pre + post, CommitKey) by { JoinSorted(ts, pre, post); }
    forall t ensures multiset(all)[t] == multiset(pre + post)[t] {
      assert t in ts ==> Planned(t);
      assert t in multiset(ts) <==> t in ts;
    }
    assert multiset(all) == multiset(pre + post);
    SortedUnique(all, pre + post, CommitKey);
  }

  lemma JoinSorted(ts: seq<Transaction>, pre: seq<Transaction>, post: seq<Transaction>)
    requires WellPlanned(ts) && PostFollowsPre(ts) && Own(pre, ts) && Own(post, ts)
    requires forall t :: t in pre ==> Within(t, PRE_BOUNDARY)
    requires forall t :: t in post ==> t.body.phase == "POST_BOUNDARY"
    requires Sorted(pre, CommitKey) && Sorted(post, CommitKey)
    ensures Sorted(pre + post, CommitKey)
  {
    forall t, u | t in pre && u in post ensures Le(CommitKey(t), CommitKey(u)) {
      assert Planned(t) && Planned(u);
    }
    var s := pre + post;
    forall i, j | 0 <= i < j < |s| ensures Le(CommitKey(s[i]), CommitKey(s[j])) {
      if i < |pre| <= j { assert s[i] in pre && s[j] in post; }
    }
  }

  /** Replaying everything is replaying what follows the boundary from the state at the boundary. */
  lemma ReplayContinues(spec: Workload)
    requires Replay(spec, PRE_BOUNDARY).Ok? && PostFollowsPre(spec.material.transactions)
    ensures match ReplayAll(Replay(spec, PRE_BOUNDARY).value.rows, Post(spec.material.transactions))
            case Ok(rows) => Replay(spec, POST_BOUNDARY).Ok? && Replay(spec, POST_BOUNDARY).value.rows == rows
            case Err(code) => Replay(spec, POST_BOUNDARY) == Err(code)
  {
    hide Fault, Eligible, Filtered, Post, ReplayAll;
    SplitAtBoundary(spec);
    ReplayCommitted(map[], Eligible(spec, PRE_BOUNDARY));
    ReplayCommitted(map[], Eligible(spec, POST_BOUNDARY));
    ReplayJoins(map[], Filtered(Eligible(spec, PRE_BOUNDARY), Commits), Post(spec.material.transactions));
  }

  /** The captured event says what the source did. */
  predicate Carries(e: Event, b: EventBody)
  {
    && e.table == b.table && b.table in TABLES && e.key == b.key
    && match e.change
       case Insert(after) => b.operation == "insert" && b.before == None && b.after == Some(after)
       case Update(before, after) => b.operation == "update" && b.before == Some(before) && b.after == Some(after)
       case Delete(before) => b.operation == "delete" && b.before == Some(before) && b.after == None
  }

  predicate CarriesAll(events: seq<Event>, bodies: seq<SourceEvent>)
  {
    |events| == |bodies| && forall i :: 0 <= i < |events| ==> Carries(events[i], bodies[i].body)
  }

  lemma EventAgrees(w: Ref.Work, e: Event, b: EventBody)
    requires Carries(e, b) && (e.change.Delete? ==> e.id !in w.tombstones)
    ensures ReplayEvent(w.rows, b).Ok? <==> Ref.ApplyEvent(w, e).Ok?
    ensures Ref.ApplyEvent(w, e).Ok? ==> Ref.ApplyEvent(w, e).value.rows == ReplayEvent(w.rows, b).value
  {
  }

  function DeleteIds(events: seq<Event>): set<string> { set e | e in events && e.change.Delete? :: e.id }

  lemma {:induction false} EventsAgree(w: Ref.Work, events: seq<Event>, bodies: seq<SourceEvent>)
    requires CarriesAll(events, bodies) && Ref.FreshDeletes(w, events)
    ensures ReplayEvents(w.rows, bodies).Ok? <==> Ref.ApplyEvents(w, events).Ok?
    ensures Ref.ApplyEvents(w, events).Ok? ==>
              && Ref.ApplyEvents(w, events).value.rows == ReplayEvents(w.rows, bodies).value
              && Ref.ApplyEvents(w, events).value.tombstones.Keys == w.tombstones.Keys + DeleteIds(events)
    decreases |events|
  {
    hide Carries, Ref.Lookup, Ref.TombstoneOf, ReplayEvent;
    if events != [] {
      var head, tail := events[0], events[1..];
      assert events == [head] + tail;
      EventAgrees(w, head, bodies[0].body);
      if Ref.ApplyEvent(w, head).Ok? {
        var w' := Ref.ApplyEvent(w, head).value;
        forall e | e in tail && e.change.Delete? ensures e.id !in w'.tombstones {
          var k :| 0 <= k < |tail| && tail[k] == e;
          assert events[k + 1] == e && e in events;
        }
        assert Ref.FreshDeletes(w', tail) by {
          assert forall i :: 0 <= i < |tail| ==> tail[i] == events[i + 1];
        }
        EventsAgree(w', tail, bodies[1..]);
        assert DeleteIds(events) == DeleteIds([head]) + DeleteIds(tail);
      }
    }
  }

  /** Feed transactions to the reference, one after the other. */
  function Feed(w: Ref.Work, plans: seq<Plan>): Ref.Outcome<Ref.Work>
    decreases |plans|
  {
    if plans == [] then Ref.Ok(w)
    else match Ref.ApplyEvents(w, plans[0].events)
      case Err(code) => Ref.Err(code)
      case Ok(w') => Feed(w', plans[1..])
  }

  /** No two deletes share an event id. */
  ghost predicate FreshPlans(w: Ref.Work, plans: seq<Plan>)
  {
    && (forall p :: p in plans ==> Ref.FreshDeletes(w, p.events))
    && (forall i, j :: 0 <= i < j < |plans| ==> DeleteIds(plans[i].events) !! DeleteIds(plans[j].events))
  }

  predicate PlansCarry(plans: seq<Plan>, ts: seq<Transaction>)
  {
    |plans| == |ts| && forall i :: 0 <= i < |plans| ==> CarriesAll(plans[i].events, ts[i].body.events)
  }

  lemma {:induction false} FeedAgrees(w: Ref.Work, plans: seq<Plan>, ts: seq<Transaction>)
    requires PlansCarry(plans, ts) && FreshPlans(w, plans) && forall t :: t in ts ==> Commits(t)
    ensures ReplayAll(w.rows, ts).Ok? <==> Feed(w, plans).Ok?
    ensures Feed(w, plans).Ok? ==> Feed(w, plans).value.rows == ReplayAll(w.rows, ts).value
    decreases |plans|
  {
    if plans != [] {
      var head, tail := plans[0], plans[1..];
      assert head in plans && ts[0] in ts;
      EventsAgree(w, head.events, ts[0].body.events);
      if Ref.ApplyEvents(w, head.events).Ok? {
        var w' := Ref.ApplyEvents(w, head.events).value;
        forall p | p in tail ensures Ref.FreshDeletes(w', p.events) {
          var k :| 0 <= k < |tail| && tail[k] == p;
          assert plans[k + 1] == p && p in plans && plans[0] == head;
          assert DeleteIds(head.events) !! DeleteIds(p.events);
          forall e | e in p.events && e.change.Delete? ensures e.id !in w'.tombstones {
            assert e.id in DeleteIds(p.events);
          }
        }
        assert forall i :: 0 <= i < |tail| ==> tail[i] == plans[i + 1];
        FeedAgrees(w', tail, ts[1..]);
      }
    }
  }

  /**
  Feeding the reference, from the state at the boundary, the transactions committed
  after it, succeeds exactly when the source's own replay does, and ends in the
  source's rows.
  */
  lemma ChangesFromBoundary(spec: Workload, plans: seq<Plan>)
    requires Replay(spec, PRE_BOUNDARY).Ok? && PostFollowsPre(spec.material.transactions)
    requires PlansCarry(plans, Post(spec.material.transactions))
    requires FreshPlans(Ref.Work(Replay(spec, PRE_BOUNDARY).value.rows, map[]), plans)
    ensures var w := Ref.Work(Replay(spec, PRE_BOUNDARY).value.rows, map[]);
            && (Replay(spec, POST_BOUNDARY).Ok? <==> Feed(w, plans).Ok?)
            && (Feed(w, plans).Ok? ==> Feed(w, plans).value.rows == Replay(spec, POST_BOUNDARY).value.rows)
  {
    hide Replay, Post, ReplayAll, Feed, PlansCarry, FreshPlans;
    ReplayContinues(spec);
    PostIsSorted(spec.material.transactions);
    FeedAgrees(Ref.Work(Replay(spec, PRE_BOUNDARY).value.rows, map[]), plans, Post(spec.material.transactions));
  }

  /** Every row sits under its own key, in one of the two tables. */
  ghost predicate Keyed(rows: Rows)
  {
    forall p :: p in rows ==> p.0 in TABLES && rows[p].key == p.1
  }

  /** The row list of one table, as the replay reports it. */
  ghost predicate RowsOf(rows: Rows, table: string, list: seq<Row>)
  {
    forall row :: row in list <==> (table, row.key) in rows && rows[(table, row.key)] == row
  }

  lemma {:induction false} LoadedMeans(rows: Rows, table: string, list: seq<Row>, p: Ref.Place)
    requires forall i, j :: 0 <= i < |list| && 0 <= j < |list| && list[i].key == list[j].key ==> list[i] == list[j]
    ensures Ref.Lookup(Ref.Loaded(rows, table, list), p) ==
              if exists row :: row in list && p == (table, row.key)
              then Some(var row :| row in list && p == (table, row.key); row) else Ref.Lookup(rows, p)
  {
    if list != [] {
      var n := |list| - 1;
      assert list == list[..n] + [list[n]];
      LoadedMeans(rows, table, list[..n], p);
    }
  }

  /** The two tables, in either order, with their reported rows. */
  ghost predicate Reports(tables: seq<(string, seq<Row>)>, rows: Rows)
  {
    && |tables| == 2 && {tables[0].0, tables[1].0} == TABLES
    && RowsOf(rows, tables[0].0, tables[0].1) && RowsOf(rows, tables[1].0, tables[1].1)
  }

  /** Initializing the reference with the reported row lists restores the replayed state. */
  lemma InitializeRestores(rows: Rows, tables: seq<(string, seq<Row>)>)
    requires Keyed(rows) && Reports(tables, rows)
    ensures Ref.LoadedAll(map[], tables) == rows
  {
    assert tables[..1][..0] == [] && tables[..1][0] == tables[0];
    var first := Ref.Loaded(map[], tables[0].0, tables[0].1);
    var both := Ref.Loaded(first, tables[1].0, tables[1].1);
    assert Ref.LoadedAll(map[], tables[..1]) == first;
    assert Ref.LoadedAll(map[], tables) == both;
    LoadedRestores(rows, tables[0].0, tables[0].1, tables[1].0, tables[1].1);
  }

  lemma LoadedRestores(rows: Rows, a: string, listA: seq<Row>, b: string, listB: seq<Row>)
    requires Keyed(rows) && {a, b} == TABLES && RowsOf(rows, a, listA) && RowsOf(rows, b, listB)
    ensures Ref.Loaded(Ref.Loaded(map[], a, listA), b, listB) == rows
  {
    hide Ref.Loaded;
    assert a != b by { assert "orders" in {a, b} && "order_items" in {a, b}; }
    var first := Ref.Loaded(map[], a, listA);
    var both := Ref.Loaded(first, b, listB);
    forall p: Ref.Place ensures Ref.Lookup(both, p) == Ref.Lookup(rows, p) {
      LoadedMeans(map[], a, listA, p);
      LoadedMeans(first, b, listB, p);
      if p in rows {
        assert p.0 in {a, b} && p == (p.0, rows[p].key);
        assert rows[p] in (if p.0 == a then listA else listB);
      }
    }
    forall p | p in both || p in rows ensures p in both && p in rows && both[p] == rows[p] {
      assert Ref.Lookup(both, p) == Ref.Lookup(rows, p);
    }
  }

  /** Row changes that carry their own key keep every row under its key. */
  lemma {:induction false} KeyedStays(rows: Rows, bodies: seq<SourceEvent>)
    requires Keyed(rows) && ReplayEvents(rows, bodies).Ok?
    requires forall b :: b in bodies && b.body.after.Some? ==> b.body.after.value.key == b.body.key
    ensures Keyed(ReplayEvents(rows, bodies).value)
    decreases |bodies|
  {
    if bodies != [] {
      assert bodies[0] in bodies;
      KeyedStays(ReplayEvent(rows, bodies[0].body).value, bodies[1..]);
    }
  }

  lemma {:induction false} ReplayIsKeyed(rows: Rows, ts: seq<Transaction>)
    requires Keyed(rows) && ReplayAll(rows, ts).Ok?
    requires forall t, b :: t in ts && b in t.body.events && b.body.after.Some? ==> b.body.after.value.key == b.body.key
    ensures Keyed(ReplayAll(rows, ts).value)
    decreases |ts|
  {
    if ts != [] {
      assert ts[0] in ts;
      if Commits(ts[0]) {
        KeyedStays(rows, ts[0].body.events);
        ReplayIsKeyed(ReplayEvents(rows, ts[0].body.events).value, ts[1..]);
      } else {
        ReplayIsKeyed(rows, ts[1..]);
      }
    }
  }

  /** Every row change of the workload carries its own key. */
  ghost predicate CarriesKeys(spec: Workload)
  {
    forall t, b :: t in spec.material.transactions && b in t.body.events && b.body.after.Some? ==>
      b.body.after.value.key == b.body.key
  }

  lemma BoundaryIsKeyed(spec: Workload)
    requires Replay(spec, PRE_BOUNDARY).Ok? && CarriesKeys(spec)
    ensures Keyed(Replay(spec, PRE_BOUNDARY).value.rows)
  {
    hide Fault, Filtered;
    var within := t => Within(t, PRE_BOUNDARY);
    FilteredMeans(spec.material.transactions, within);
    SortFacts(Filtered(spec.material.transactions, within), CommitKey);
    ReplayIsKeyed(map[], Eligible(spec, PRE_BOUNDARY));
  }

  /**
  Snapshot plus changes equals source.  Initialize the reference with the row lists that
  the replay up to the boundary reports, in either order of the tables, and feed it the
  transactions committed after the boundary: that succeeds exactly when the source's own
  replay does, and ends in the source's rows.
  */
  lemma SnapshotPlusChanges(spec: Workload, tables: seq<(string, seq<Row>)>, plans: seq<Plan>)
    requires Replay(spec, PRE_BOUNDARY).Ok? && PostFollowsPre(spec.material.transactions) && CarriesKeys(spec)
    requires Reports(tables, Replay(spec, PRE_BOUNDARY).value.rows)
    requires PlansCarry(plans, Post(spec.material.transactions))
    requires FreshPlans(Ref.Work(Ref.LoadedAll(map[], tables), map[]), plans)
    ensures var w := Ref.Work(Ref.LoadedAll(map[], tables), map[]);
            && w.rows == Replay(spec, PRE_BOUNDARY).value.rows
            && (Replay(spec, POST_BOUNDARY).Ok? <==> Feed(w, plans).Ok?)
            && (Feed(w, plans).Ok? ==> Feed(w, plans).value.rows == Replay(spec, POST_BOUNDARY).value.rows)
  {
    hide Replay, Post, Feed, PlansCarry, FreshPlans, Reports, CarriesKeys, Keyed, Ref.LoadedAll;
    BoundaryIsKeyed(spec);
    InitializeRestores(Replay(spec, PRE_BOUNDARY).value.rows, tables);
    ChangesFromBoundary(spec, plans);
  }

  /** The payloads the engine stores for rows. */
  function Payloads(rows: Rows): Eng.Tables { map p | p in rows :: rows[p].fields }

  /** The engine's event for a row change of the source. */
  predicate Mirrors(c: Eng.ChangeEvent, b: EventBody)
  {
    && c.table == b.table && c.key == b.key && b.operation in {"insert", "update", "delete"}
    && (c.operation.DELETE? <==> b.operation == "delete")
    && c.after == (if b.after.Some? then Some(b.after.value.fields) else None)
  }

  predicate MirrorsAll(changes: seq<Eng.ChangeEvent>, bodies: seq<SourceEvent>)
  {
    |changes| == |bodies| && forall i :: 0 <= i < |changes| ==> Mirrors(changes[i], bodies[i].body)
  }

  predicate TransactionsMirror(cs: seq<Eng.CdcTransaction>, ts: seq<Transaction>)
  {
    |cs| == |ts| && forall i :: 0 <= i < |cs| ==> MirrorsAll(cs[i].events, ts[i].body.events)
  }

  lemma {:induction false} ReplayFront(rows: Rows, bodies: seq<SourceEvent>)
    requires bodies != []
    ensures ReplayEvents(rows, bodies) ==
              (match ReplayEvents(rows, bodies[..|bodies| - 1])
               case Err(code) => Err(code)
               case Ok(rows') => ReplayEvent(rows', bodies[|bodies| - 1].body))
    decreases |bodies|
  {
    if |bodies| == 1 {
      assert bodies[1..] == [] && bodies[..0] == [];
    } else if ReplayEvent(rows, bodies[0].body).Ok? {
      ReplayFront(ReplayEvent(rows, bodies[0].body).value, bodies[1..]);
      assert bodies[1..][..|bodies| - 2] == bodies[..|bodies| - 1][1..];
    }
  }

  lemma BlindUpsertAgrees(rows: Rows, c: Eng.ChangeEvent, b: EventBody)
    requires Mirrors(c, b) && ReplayEvent(rows, b).Ok?
    ensures Payloads(ReplayEvent(rows, b).value) ==
              if c.operation.DELETE? then Payloads(rows) - {c.Place()} else Payloads(rows)[c.Place() := c.after.value]
  {
  }

  lemma {:induction false} EngineEvents(rows: Rows, changes: seq<Eng.ChangeEvent>, bodies: seq<SourceEvent>)
    requires MirrorsAll(changes, bodies) && ReplayEvents(rows, bodies).Ok?
    ensures EngineFacts.ReplayEvents(Payloads(rows), changes) == Payloads(ReplayEvents(rows, bodies).value)
    decreases |bodies|
  {
    if bodies != [] {
      var n := |bodies| - 1;
      ReplayFront(rows, bodies);
      EngineEvents(rows, changes[..n], bodies[..n]);
      BlindUpsertAgrees(ReplayEvents(rows, bodies[..n]).value, changes[n], bodies[n].body);
    }
  }

  lemma {:induction false} EngineReplays(rows: Rows, cs: seq<Eng.CdcTransaction>, ts: seq<Transaction>)
    requires TransactionsMirror(cs, ts) && ReplayAll(rows, ts).Ok? && forall t :: t in ts ==> Commits(t)
    ensures EngineFacts.Replay(Payloads(rows), cs) == Payloads(ReplayAll(rows, ts).value)
    decreases |ts|
  {
    if ts != [] {
      var n := |ts| - 1;
      assert ts == ts[..n] + [ts[n]];
      ReplayJoins(rows, ts[..n], [ts[n]]);
      assert [ts[n]][1..] == [];
      EngineReplays(rows, cs[..n], ts[..n]);
      EngineEvents(ReplayAll(rows, ts[..n]).value, cs[n].events, ts[n].body.events);
    }
  }

  /**
  An engine generation loaded with the state at the boundary, to which batches of the
  transactions committed after it were applied, in whatever run: its live rows are the
  rows of the source.
  */
  lemma EngineEqualsSource(spec: Workload, ops: seq<EngineFacts.Op>, gen: string)
    requires Replay(spec, POST_BOUNDARY).Ok? && Replay(spec, PRE_BOUNDARY).Ok?
    requires PostFollowsPre(spec.material.transactions)
    requires gen in EngineFacts.Run(ops).0.generations && gen in EngineFacts.Run(ops).1.histories
    requires var h := EngineFacts.Run(ops).1.histories[gen];
             && h.snapshot == Payloads(Replay(spec, PRE_BOUNDARY).value.rows)
             && TransactionsMirror(EngineFacts.AllTransactions(h.batches), Post(spec.material.transactions))
    ensures Eng.StateOf(EngineFacts.Run(ops).0.generations[gen]) == Payloads(Replay(spec, POST_BOUNDARY).value.rows)
  {
    hide Replay, Post, ReplayAll, EngineFacts.Run, TransactionsMirror, Payloads;
    ReplayContinues(spec);
    PostIsSorted(spec.material.transactions);
    EngineFacts.StateIsReplay(ops, gen);
    EngineReplays(Replay(spec, PRE_BOUNDARY).value.rows,
                  EngineFacts.AllTransactions(EngineFacts.Run(ops).1.histories[gen].batches),
                  Post(spec.material.transactions));
  }

  /**
  Where the two part: the source accepts an update without a before image of a row that
  does not exist, which no update event makes the reference accept.
  */
  lemma UpsertDiverges(w: Ref.Work, b: EventBody, e: Event)
    requires b.operation == "update" && b.before == None && b.after.Some? && b.table in TABLES
    requires (b.table, b.key) !in w.rows && Ref.PlaceOf(e) == (b.table, b.key) && e.change.Update?
    ensures ReplayEvent(w.rows, b) == Ok(w.rows[(b.table, b.key) := b.after.value])
    ensures Ref.ApplyEvent(w, e) == Ref.Err(Ref.CB24R003_BEFORE_IMAGE_MISMATCH)
  {
  }
}
