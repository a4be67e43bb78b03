/**
Row-change events, apply plans and digests.

A digest is a constructor applied to its domain and its material, so two digests
agree exactly when they were taken of the same material in the same domain.
Event images have the shapes that the transaction assembler admits.

A transaction's digest is taken of the projections of its events, which leave out when
they were ingested; a table's input digest, and with it the commit token, is taken of
the whole events.
*/
module Events {
  import opened Sorting

  datatype Value = Null | Number(n: int) | Text(s: string)

  /** A business row in normal form: its primary-key column and the others. */
  datatype Row = Row(key: string, fields: map<string, Value>)

  datatype Change = Insert(after: Row) | Update(before: Row, after: Row) | Delete(before: Row)

  /** What a transaction digest covers of an event. */
  datatype Projection = Projection(id: string, table: string, key: string, position: string, change: Change)

  datatype Event = Event(id: string, table: string, key: string, position: string, change: Change, ingestedAt: string)
  {
    function Projected(): Projection { Projection(id, table, key, position, change) }

    /** The row image a target row is built from: the after image, else the before image. */
    function Image(): Row {
      match change
      case Insert(after) => after
      case Update(_, after) => after
      case Delete(before) => before
    }

    /** `primary_key[0].value` is the key column of every image of the event. */
    predicate KeyedByImage() {
      && Image().key == key
      && (change.Update? ==> change.before.key == key)
    }
  }

  datatype Digest =
    | Given(text: string)
    | TransactionInput(manifest: string, projections: seq<Projection>)
    | TableInput(events: seq<Event>)
    | CommitToken(gen: string, tx: string, table: string, input: Digest)
    | TableState(table: string, rows: map<string, seq<Row>>)
    | BeforeImage(table: string, row: Row)
    | ReceiptSet(tables: seq<string>, tokens: seq<Digest>, states: seq<Digest>, recovered: seq<bool>)

  /** One assembled source transaction, ready to be applied. */
  datatype Plan = Plan(gen: string, tx: string, digest: Digest, previousFrontier: string,
                       commitLsn: string, manifest: string, tables: seq<string>, events: seq<Event>)
  {
    /** The tables the coordinator visits, in the order it visits them. */
    function Visits(): seq<string> { SortedSet(tables) }

    function Input(table: string): Digest { TableInput(EventsFor(events, table)) }

    function Token(table: string): Digest { CommitToken(gen, tx, table, Input(table)) }
  }

  /** The events of one table, in plan order. */
  function EventsFor(events: seq<Event>, table: string): (r: seq<Event>)
    ensures forall e :: e in r <==> e in events && e.table == table
  {
    if events == [] then []
    else (if events[0].table == table then [events[0]] else []) + EventsFor(events[1..], table)
  }

  function TablesOf(events: seq<Event>): set<string> { set e | e in events :: e.table }

  function Projections(events: seq<Event>): (r: seq<Projection>)
    ensures |r| == |events| && forall i :: 0 <= i < |events| ==> r[i] == events[i].Projected()
  {
    seq(|events|, i requires 0 <= i < |events| => events[i].Projected())
  }

  /** The projections of one table, in order. */
  function Slice(events: seq<Projection>, table: string): (r: seq<Projection>)
    ensures forall e :: e in r <==> e in events && e.table == table
  {
    if events == [] then []
    else (if events[0].table == table then [events[0]] else []) + Slice(events[1..], table)
  }

  function TablesIn(events: seq<Projection>): set<string> { set e | e in events :: e.table }

  lemma {:induction false} SliceOfProjections(events: seq<Event>, table: string)
    ensures Slice(Projections(events), table) == Projections(EventsFor(events, table))
  {
    if events != [] {
      SliceOfProjections(events[1..], table);
      assert Projections(events)[1..] == Projections(events[1..]);
    }
  }

  lemma ProjectionsSplit(events: seq<Event>)
    requires events != []
    ensures Projections(events)[0] == events[0].Projected() && Projections(events)[1..] == Projections(events[1..])
  {
  }

  lemma TablesOfProjections(events: seq<Event>)
    ensures TablesIn(Projections(events)) == TablesOf(events)
  {
    forall name ensures name in TablesIn(Projections(events)) <==> name in TablesOf(events) {
      if e :| e in events && e.table == name { ProjectionIsListed(events, e); }
    }
  }

  lemma ProjectionIsListed(events: seq<Event>, e: Event)
    requires e in events
    ensures e.Projected() in Projections(events)
  {
    var i :| 0 <= i < |events| && events[i] == e;
    assert Projections(events)[i] == e.Projected();
  }

  /** What the assembler guarantees of its plans. */
  predicate Assembled(plan: Plan)
  {
    && plan.digest == TransactionInput(plan.manifest, Projections(plan.events))
    && Lists(plan.tables, TablesOf(plan.events))
  }

  /** Every event touches its own row. */
  ghost predicate DistinctRows(events: seq<Event>)
  {
    forall i, j :: 0 <= i < j < |events| ==>
      (events[i].table, events[i].key) != (events[j].table, events[j].key)
  }

  ghost predicate AllKeyed(events: seq<Event>)
  {
    forall e :: e in events ==> e.KeyedByImage()
  }

  lemma {:induction false} EventsForDistinct(events: seq<Event>, table: string)
    requires DistinctRows(events)
    ensures DistinctRows(EventsFor(events, table))
  {
    if events != [] {
      assert events == [events[0]] + events[1..];
      EventsForDistinct(events[1..], table);
      var t := EventsFor(events[1..], table);
      forall e | e in t ensures (e.table, e.key) != (events[0].table, events[0].key) {}
      assert EventsFor(events, table) == (if events[0].table == table then [events[0]] else []) + t;
    }
  }
}
