/**
Grouping a transaction by table, checking every before image against the old
tables and merging once per table, against applying the events one by one.
*/
module BatchRefinement {
  import opened Common
  import opened Events
  import opened IcebergCdc
  import Ref = ReferenceCdc

  function Single(r: Option<Row>): seq<Row>
  {
    match r case None => [] case Some(row) => [row]
  }

  /** The target's rows of table `name` are the reference's rows of that table. */
  ghost predicate TableAgrees(name: string, bag: Bag, rows: Ref.Rows)
  {
    forall key :: At(bag, key) == Single(Ref.Lookup(rows, (name, key)))
  }

  /** The target holds the reference's rows, in every table. */
  ghost predicate Agrees(tables: Tables, rows: Ref.Rows)
  {
    forall name :: TableAgrees(name, TableOf(tables, name).rows, rows)
  }

  /** Every visited table accepts its batch against the old rows. */
  ghost predicate AllAccepted(tables: Tables, plan: Plan)
  {
    forall name :: name in plan.tables ==>
      BatchAccepted(TableOf(tables, name).rows, EventsFor(plan.events, name))
  }

  /** Every visited table is merged, the other tables are left alone. */
  ghost predicate AllMerged(before: Tables, plan: Plan, after: Tables)
  {
    forall name :: TableOf(after, name).rows ==
      if name in plan.tables then Merge(TableOf(before, name).rows, EventsFor(plan.events, name))
      else TableOf(before, name).rows
  }

  /** `plan.tables` is the set of tables the events touch. */
  ghost predicate TablesFit(plan: Plan)
  {
    && (forall e :: e in plan.events ==> e.table in plan.tables)
    && (forall name :: name in plan.tables ==> EventsFor(plan.events, name) != [])
  }

  lemma MatchingHead(events: seq<Event>, key: string)
    requires events != []
    ensures Matching(events, key) ==
      if events[0].Image().key == key then [events[0]] + Matching(events[1..], key) else Matching(events[1..], key)
  {
  }

  lemma {:induction false} TailApart(events: seq<Event>, i: nat)
    requires i < |events| && DistinctRows(events) && AllKeyed(events)
    requires forall e :: e in events ==> e.table == events[0].table
    ensures forall j :: 0 <= j < |events| && j != i ==> events[j].Image().key != events[i].key
  {
    forall j | 0 <= j < |events| && j != i ensures events[j].Image().key != events[i].key {
      assert events[j] in events && events[i] in events && events[j].KeyedByImage();
    }
  }

  lemma {:induction false} MatchingAlone(events: seq<Event>, i: nat)
    requires i < |events| && events[i].Image().key == events[i].key
    requires forall j :: 0 <= j < |events| && j != i ==> events[j].Image().key != events[i].key
    ensures Matching(events, events[i].key) == [events[i]]
  {
    hide Matching;
    var tail := events[1..];
    assert events == [events[0]] + tail;
    MatchingHead(events, events[i].key);
    if i == 0 {
      forall e | e in tail ensures e.Image().key != events[0].key {
        var j :| 0 <= j < |tail| && tail[j] == e;
        assert events[j + 1] == e;
      }
    } else {
      assert forall j :: 0 <= j < |tail| ==> tail[j] == events[j + 1];
      MatchingAlone(tail, i - 1);
    }
  }

  lemma {:induction false} NoneMatching(bag: Bag, events: seq<Event>, key: string)
    requires AllKeyed(events) && forall e :: e in events ==> e.key != key
    ensures Matching(events, key) == [] && At(Merge(bag, events), key) == At(bag, key)
  {
    forall e | e in events ensures e.Image().key != key {
      assert e.KeyedByImage();
    }
    assert Inserted([]) == [];
  }

  lemma {:induction false} OneMatching(name: string, bag: Bag, events: seq<Event>, rows: Ref.Rows, e: Event)
    requires TableAgrees(name, bag, rows)
    requires DistinctRows(events) && AllKeyed(events)
    requires forall e :: e in events ==> e.table == name
    requires e in events
    ensures Matching(events, e.key) == [e]
    ensures Ref.Applicable(rows, e) ==> At(Merge(bag, events), e.key) == Single(Ref.Left(e))
  {
    var i :| 0 <= i < |events| && events[i] == e;
    assert e.KeyedByImage();
    TailApart(events, i);
    MatchingAlone(events, i);
    assert e.KeyedByImage() && e.Image().key in ImageKeys(events);
    if Ref.Applicable(rows, e) { MergedKey(name, bag, e, rows); }
  }

  lemma {:induction false} CheckMeaning(name: string, bag: Bag, e: Event, rows: Ref.Rows)
    requires TableAgrees(name, bag, rows) && e.table == name
    ensures CheckEvent(bag, e) == None <==> Ref.Applicable(rows, e)
  {
    assert At(bag, e.key) == Single(Ref.Lookup(rows, (name, e.key)));
  }

  /** A checked batch of one event per key merges, and each key ends as its event left it. */
  lemma {:induction false} BatchMeaning(name: string, bag: Bag, events: seq<Event>, rows: Ref.Rows)
    requires TableAgrees(name, bag, rows)
    requires DistinctRows(events) && AllKeyed(events)
    requires forall e :: e in events ==> e.table == name
    ensures CheckPreconditions(bag, events) == None <==> forall e :: e in events ==> Ref.Applicable(rows, e)
    ensures !MergeAmbiguous(bag, events)
    ensures CheckPreconditions(bag, events) == None ==>
      forall e :: e in events ==> At(Merge(bag, events), e.key) == Single(Ref.Left(e))
    ensures forall key :: (forall e :: e in events ==> e.key != key) ==> At(Merge(bag, events), key) == At(bag, key)
  {
    forall e | e in events
      ensures CheckEvent(bag, e) == None <==> Ref.Applicable(rows, e)
      ensures Ref.Applicable(rows, e) ==> At(Merge(bag, events), e.key) == Single(Ref.Left(e))
    {
      CheckMeaning(name, bag, e, rows);
      OneMatching(name, bag, events, rows, e);
    }
    forall key | forall e :: e in events ==> e.key != key ensures At(Merge(bag, events), key) == At(bag, key) {
      NoneMatching(bag, events, key);
    }
    forall key ensures |Matching(events, key)| <= 1 {
      if e :| e in events && e.key == key {
        OneMatching(name, bag, events, rows, e);
      } else {
        NoneMatching(bag, events, key);
      }
    }
  }

  lemma {:induction false} MergedKey(name: string, bag: Bag, e: Event, rows: Ref.Rows)
    requires TableAgrees(name, bag, rows) && e.table == name && Ref.Applicable(rows, e)
    ensures MergeKey(At(bag, e.key), [e]) == Single(Ref.Left(e))
  {
    assert At(bag, e.key) == Single(Ref.Lookup(rows, (name, e.key)));
    if e.change.Insert? {
      assert Inserted([e]) == [e.Image()] + Inserted([]);
    }
  }

  /**
  From equal tables, the table-by-table batch accepts exactly when the sequential
  reference accepts, and then leaves equal tables.
  */
  lemma {:induction false} BatchRefinesSequential(tables: Tables, plan: Plan, w: Ref.Work, after: Tables)
    requires Agrees(tables, w.rows)
    requires DistinctRows(plan.events) && AllKeyed(plan.events) && TablesFit(plan)
    requires Ref.FreshDeletes(w, plan.events)
    ensures AllAccepted(tables, plan) <==> Ref.ApplyEvents(w, plan.events).Ok?
    ensures AllAccepted(tables, plan) && AllMerged(tables, plan, after) ==>
      Agrees(after, Ref.ApplyEvents(w, plan.events).value.rows)
  {
    Ref.SequentialMeaning(w, plan.events);
    forall name {:trigger EventsFor(plan.events, name)}
      ensures var own := EventsFor(plan.events, name); DistinctRows(own) && AllKeyed(own)
    {
      EventsForDistinct(plan.events, name);
    }
    forall name | name in plan.tables
      ensures BatchAccepted(TableOf(tables, name).rows, EventsFor(plan.events, name)) <==>
              forall e :: e in EventsFor(plan.events, name) ==> Ref.Applicable(w.rows, e)
    {
      assert TableAgrees(name, TableOf(tables, name).rows, w.rows);
      BatchMeaning(name, TableOf(tables, name).rows, EventsFor(plan.events, name), w.rows);
    }
    if AllAccepted(tables, plan) {
      forall e | e in plan.events ensures Ref.Applicable(w.rows, e) {
        assert e in EventsFor(plan.events, e.table);
      }
      if AllMerged(tables, plan, after) {
        forall name ensures TableAgrees(name, TableOf(after, name).rows, Ref.ApplyEvents(w, plan.events).value.rows) {
          TableFollows(tables, plan, w, after, name);
        }
      }
    } else {
      var name :| name in plan.tables && !BatchAccepted(TableOf(tables, name).rows, EventsFor(plan.events, name));
      var e :| e in EventsFor(plan.events, name) && !Ref.Applicable(w.rows, e);
    }
  }

  lemma {:induction false} TableFollows(tables: Tables, plan: Plan, w: Ref.Work, after: Tables, name: string)
    requires Agrees(tables, w.rows)
    requires DistinctRows(plan.events) && AllKeyed(plan.events) && TablesFit(plan)
    requires AllAccepted(tables, plan) && AllMerged(tables, plan, after)
    requires Ref.ApplyEvents(w, plan.events).Ok?
    requires Ref.Effect(w.rows, plan.events, Ref.ApplyEvents(w, plan.events).value.rows)
    ensures TableAgrees(name, TableOf(after, name).rows, Ref.ApplyEvents(w, plan.events).value.rows)
  {
    hide Matching, MergeKey, CheckPreconditions, Merge, MergeAmbiguous, Ref.ApplyEvents;
    var bag, own := TableOf(tables, name).rows, EventsFor(plan.events, name);
    var bag', rows' := TableOf(after, name).rows, Ref.ApplyEvents(w, plan.events).value.rows;
    assert TableAgrees(name, bag, w.rows);
    EventsForDistinct(plan.events, name);
    BatchMeaning(name, bag, own, w.rows);
    forall key ensures At(bag', key) == Single(Ref.Lookup(rows', (name, key))) {
      if e :| e in own && e.key == key {
        assert Ref.PlaceOf(e) == (name, key);
        assert name in plan.tables;
      } else {
        forall e | e in plan.events ensures Ref.PlaceOf(e) != (name, key) {
          assert e in own <==> e.table == name;
        }
        assert At(bag', key) == At(bag, key);
      }
    }
  }

  /** Inserting twice at one place is refused by the reference. */
  lemma {:induction false} SecondInsertClashes(w: Ref.Work, events: seq<Event>, p: Ref.Place)
    requires p in w.rows
    requires forall e :: e in events && Ref.PlaceOf(e) == p ==> e.change.Insert?
    requires exists e :: e in events && Ref.PlaceOf(e) == p
    ensures Ref.ApplyEvents(w, events).Err?
    decreases |events|
  {
    assert events == [events[0]] + events[1..];
    if Ref.PlaceOf(events[0]) != p && Ref.ApplyEvent(w, events[0]).Ok? {
      SecondInsertClashes(Ref.ApplyEvent(w, events[0]).value, events[1..], p);
    }
  }

  lemma {:induction false} RepeatedInsertRefused(w: Ref.Work, events: seq<Event>, i: nat, j: nat)
    requires i < j < |events| && Ref.PlaceOf(events[i]) == Ref.PlaceOf(events[j])
    requires forall e :: e in events && Ref.PlaceOf(e) == Ref.PlaceOf(events[i]) ==> e.change.Insert?
    ensures Ref.ApplyEvents(w, events).Err?
    decreases |events|
  {
    var head, tail := events[0], events[1..];
    assert events == [head] + tail;
    if Ref.ApplyEvent(w, head).Ok? {
      var w' := Ref.ApplyEvent(w, head).value;
      assert tail[j - 1] == events[j];
      if i == 0 {
        SecondInsertClashes(w', tail, Ref.PlaceOf(head));
      } else {
        assert tail[i - 1] == events[i];
        RepeatedInsertRefused(w', tail, i - 1, j - 1);
      }
    }
  }

  lemma {:induction false} MatchingTwice(events: seq<Event>, i: nat, j: nat)
    requires i < j < |events| && events[i].key == events[j].key
    requires events[i].Image().key == events[i].key && events[j].Image().key == events[j].key
    ensures |Matching(events, events[j].key)| > 1
  {
    hide Matching;
    var head, tail := events[0], events[1..];
    assert events == [head] + tail && tail[j - 1] == events[j];
    MatchingHead(events, events[j].key);
    if i == 0 {
      assert events[j] in Matching(tail, events[j].key);
    } else {
      assert tail[i - 1] == events[i];
      MatchingTwice(tail, i - 1, j - 1);
    }
  }

  /** How many events of the table's batch the MERGE pairs with the key. */
  function Hits(events: seq<Event>, name: string, key: string): nat { |Matching(EventsFor(events, name), key)| }

  lemma HitsHead(events: seq<Event>, name: string, key: string)
    requires events != []
    ensures Hits(events, name, key) ==
      Hits(events[1..], name, key) + if events[0].table == name && events[0].Image().key == key then 1 else 0
  {
    hide Matching;
    var own := EventsFor(events, name);
    if events[0].table == name {
      assert own[0] == events[0] && own[1..] == EventsFor(events[1..], name);
      MatchingHead(own, key);
    } else {
      assert own == EventsFor(events[1..], name);
    }
  }

  lemma {:induction false} PlaceOnce(events: seq<Event>, i: nat)
    requires i < |events|
    ensures Hits(events, events[i].table, events[i].Image().key) >= 1
  {
    hide Hits;
    HitsHead(events, events[i].table, events[i].Image().key);
    if i > 0 { PlaceOnce(events[1..], i - 1); }
  }

  lemma {:induction false} PlaceTwice(events: seq<Event>, i: nat, j: nat)
    requires i < j < |events|
    requires events[i].table == events[j].table && events[i].Image().key == events[j].Image().key
    ensures Hits(events, events[j].table, events[j].Image().key) > 1
  {
    hide Hits;
    HitsHead(events, events[j].table, events[j].Image().key);
    if i > 0 { PlaceTwice(events[1..], i - 1, j - 1); } else { PlaceOnce(events[1..], j - 1); }
  }

  /** Accepted by target and reference alike, a transaction touches no row twice. */
  lemma {:induction false} AcceptedByBoth(tables: Tables, plan: Plan, w: Ref.Work)
    requires AllKeyed(plan.events) && TablesFit(plan)
    requires AllAccepted(tables, plan) && Ref.ApplyEvents(w, plan.events).Ok?
    ensures DistinctRows(plan.events)
  {
    hide Matching, CheckPreconditions, Ref.ApplyEvents;
    if !DistinctRows(plan.events) {
      var i, j :| 0 <= i < j < |plan.events|
        && (plan.events[i].table, plan.events[i].key) == (plan.events[j].table, plan.events[j].key);
      assert plan.events[i].KeyedByImage() && plan.events[j].KeyedByImage();
      PlaceTwice(plan.events, i, j);
      assert plan.events[j] in plan.events;
      forall e | e in plan.events && Ref.PlaceOf(e) == Ref.PlaceOf(plan.events[i]) ensures e.change.Insert? {
        OnlyInserts(tables, plan, e);
      }
      RepeatedInsertRefused(w, plan.events, i, j);
    }
  }

  /** Of several events at one place of an accepted batch, each is an insert. */
  lemma {:induction false} OnlyInserts(tables: Tables, plan: Plan, e: Event)
    requires AllAccepted(tables, plan) && TablesFit(plan) && e in plan.events
    requires |Matching(EventsFor(plan.events, e.table), e.key)| > 1
    ensures e.change.Insert?
  {
    hide Matching, CheckPreconditions;
    var bag, own := TableOf(tables, e.table).rows, EventsFor(plan.events, e.table);
    assert e in own && BatchAccepted(bag, own);
    assert CheckEvent(bag, e) == None;
  }

  /**
  The exact condition of agreement: a batch that the target accepts is accepted by
  the reference if and only if it touches no row twice.
  */
  lemma {:induction false} AcceptedBatchIsSequentialIffDistinct(name: string, bag: Bag, events: seq<Event>, w: Ref.Work)
    requires TableAgrees(name, bag, w.rows) && AllKeyed(events)
    requires forall e :: e in events ==> e.table == name
    requires Ref.FreshDeletes(w, events)
    requires BatchAccepted(bag, events)
    ensures Ref.ApplyEvents(w, events).Ok? <==> DistinctRows(events)
  {
    if DistinctRows(events) {
      BatchMeaning(name, bag, events, w.rows);
      Ref.SequentialMeaning(w, events);
    } else {
      var i, j :| 0 <= i < j < |events| && (events[i].table, events[i].key) == (events[j].table, events[j].key);
      assert events[i].KeyedByImage() && events[j].KeyedByImage();
      MatchingTwice(events, i, j);
      forall e | e in events && Ref.PlaceOf(e) == Ref.PlaceOf(events[i]) ensures e.change.Insert? {
        assert CheckEvent(bag, e) == None;
      }
      RepeatedInsertRefused(w, events, i, j);
    }
  }

  /**
  An insert and then an update of the inserted row: the reference accepts, and ends with
  the updated row; the target checks the update against the old table and refuses.
  */
  lemma {:induction false} InsertThenUpdateDiverges(name: string, bag: Bag, w: Ref.Work, insert: Event, update: Event)
    requires TableAgrees(name, bag, w.rows) && insert.table == name && Ref.PlaceOf(update) == Ref.PlaceOf(insert)
    requires Ref.PlaceOf(insert) !in w.rows
    requires insert.change.Insert? && update.change.Update? && update.change.before == insert.change.after
    ensures Ref.ApplyEvents(w, [insert, update])
         == Ref.Ok(w.(rows := w.rows[Ref.PlaceOf(insert) := update.change.after]))
    ensures CheckPreconditions(bag, [insert, update]) == Some(CB24I003_TARGET_ROW_MISSING)
  {
    assert [insert, update][1..] == [update] && [update][1..] == [];
    assert At(bag, insert.key) == Single(Ref.Lookup(w.rows, (name, insert.key)));
    var w1 := w.(rows := w.rows[Ref.PlaceOf(insert) := insert.change.after]);
    var w2 := w1.(rows := w1.rows[Ref.PlaceOf(update) := update.change.after]);
    assert Ref.ApplyEvents(w1, [update]) == Ref.ApplyEvents(w2, []);
    assert w1.rows[Ref.PlaceOf(update) := update.change.after] == w.rows[Ref.PlaceOf(insert) := update.change.after];
  }

  /** Two inserts of one new key: the target keeps two rows, the reference refuses. */
  lemma {:induction false} DuplicateInsertDiverges(name: string, id: string, key: string, row: Row)
    requires row.key == key
    ensures var e := Event(id, name, key, "0/1", Insert(row), "");
      && BatchAccepted(map[], [e, e])
      && At(Merge(map[], [e, e]), key) == [row, row]
      && Ref.ApplyEvents(Ref.Work(map[], map[]), [e, e]) == Ref.Err(Ref.CB24R002_DUPLICATE_INSERT)
  {
    var e := Event(id, name, key, "0/1", Insert(row), "");
    assert [e, e][1..] == [e] && [e][1..] == [];
    assert Matching([e], key) == [e] + Matching([], key) && Inserted([e]) == [row] + Inserted([]);
    assert Matching([e, e], key) == [e, e] && Inserted([e, e]) == [row, row];
    assert e in [e, e] && e.Image().key in ImageKeys([e, e]);
    var w := Ref.ApplyEvent(Ref.Work(map[], map[]), e).value;
    assert Ref.ApplyEvents(w, [e]) == Ref.Err(Ref.CB24R002_DUPLICATE_INSERT);
  }
}
