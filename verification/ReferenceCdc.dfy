/**
The sequential reference store (reference_cdc.py): events of a transaction are
checked and applied one after the other, all or nothing.
*/
module ReferenceCdc {
  import opened Common
  import opened Events

  type Place = (string, string)
  type Rows = map<Place, Row>

  datatype Code = CB24R001_REPLAY_CONFLICT | CB24R002_DUPLICATE_INSERT | CB24R003_BEFORE_IMAGE_MISMATCH
                | INTEGRITY_ERROR

  datatype Tombstone = Tombstone(table: string, key: string, position: string, before: Digest)

  /** The rows and tombstones a transaction is working on. */
  datatype Work = Work(rows: Rows, tombstones: map<string, Tombstone>)

  datatype Outcome<+T> = Ok(value: T) | Err(code: Code)

  function PlaceOf(e: Event): Place { (e.table, e.key) }

  function Lookup(rows: Rows, p: Place): Option<Row> { if p in rows then Some(rows[p]) else None }

  /** May the event be applied to these rows? */
  predicate Applicable(rows: Rows, e: Event)
  {
    match e.change
    case Insert(_) => Lookup(rows, PlaceOf(e)) == None
    case Update(before, _) => Lookup(rows, PlaceOf(e)) == Some(before)
    case Delete(before) => Lookup(rows, PlaceOf(e)) == Some(before)
  }

  /** What the event leaves at its place. */
  function Left(e: Event): Option<Row>
  {
    match e.change
    case Insert(after) => Some(after)
    case Update(_, after) => Some(after)
    case Delete(_) => None
  }

  function TombstoneOf(e: Event): Tombstone
    requires e.change.Delete?
  {
    Tombstone(e.table, e.key, e.position, BeforeImage(e.table, e.change.before))
  }

  function ApplyEvent(w: Work, e: Event): Outcome<Work>
  {
    var p := PlaceOf(e);
    match e.change
    case Insert(after) =>
      if p in w.rows then Err(CB24R002_DUPLICATE_INSERT) else Ok(w.(rows := w.rows[p := after]))
    case Update(before, after) =>
      if Lookup(w.rows, p) != Some(before) then Err(CB24R003_BEFORE_IMAGE_MISMATCH)
      else Ok(w.(rows := w.rows[p := after]))
    case Delete(before) =>
      if Lookup(w.rows, p) != Some(before) then Err(CB24R003_BEFORE_IMAGE_MISMATCH)
      else if e.id in w.tombstones then Err(INTEGRITY_ERROR)
      else Ok(Work(w.rows - {p}, w.tombstones[e.id := TombstoneOf(e)]))
  }

  function ApplyEvents(w: Work, events: seq<Event>): Outcome<Work>
    decreases |events|
  {
    if events == [] then Ok(w)
    else match ApplyEvent(w, events[0])
      case Err(code) => Err(code)
      case Ok(w') => ApplyEvents(w', events[1..])
  }

  /** No delete reuses an event id, nor one that already has a tombstone. */
  ghost predicate FreshDeletes(w: Work, events: seq<Event>)
  {
    && (forall e :: e in events && e.change.Delete? ==> e.id !in w.tombstones)
    && (forall i, j :: 0 <= i < j < |events| && events[i].change.Delete? && events[j].change.Delete? ==>
          events[i].id != events[j].id)
  }

  /** Rows touched by `events` hold what the event left, the others are as before. */
  ghost predicate Effect(before: Rows, events: seq<Event>, after: Rows)
  {
    && (forall e :: e in events ==> Lookup(after, PlaceOf(e)) == Left(e))
    && (forall p :: (forall e :: e in events ==> PlaceOf(e) != p) ==> Lookup(after, p) == Lookup(before, p))
  }

  /** The tombstones after are those before and one for each delete. */
  ghost predicate Buried(before: map<string, Tombstone>, events: seq<Event>, after: map<string, Tombstone>)
  {
    && (forall e :: e in events && e.change.Delete? ==> e.id in after && after[e.id] == TombstoneOf(e))
    && (forall id :: id in before ==> id in after && after[id] == before[id])
    && (forall id :: id in after && id !in before ==>
          exists e :: e in events && e.change.Delete? && e.id == id)
  }

  /**
  When no row is touched twice, applying one by one succeeds exactly when every
  event is applicable to the rows before the transaction, and each row ends as
  its one event left it.
  */
  lemma {:induction false} SequentialMeaning(w: Work, events: seq<Event>)
    requires DistinctRows(events) && FreshDeletes(w, events)
    ensures ApplyEvents(w, events).Ok? <==> forall e :: e in events ==> Applicable(w.rows, e)
    ensures ApplyEvents(w, events).Ok? ==>
      && Effect(w.rows, events, ApplyEvents(w, events).value.rows)
      && Buried(w.tombstones, events, ApplyEvents(w, events).value.tombstones)
    decreases |events|
  {
    hide TombstoneOf;
    if events != [] {
      var head, tail := events[0], events[1..];
      assert events == [head] + tail;
      if ApplyEvent(w, head).Ok? {
        var w' := ApplyEvent(w, head).value;
        TailApplies(w, head, tail);
        SequentialMeaning(w', tail);
        if ApplyEvents(w', tail).Ok? {
          EffectStep(w, head, tail, ApplyEvents(w', tail).value);
        }
      } else {
        assert head in events && !Applicable(w.rows, head);
      }
    }
  }

  /** An applied event does not touch other places. */
  lemma ElsewhereStays(w: Work, head: Event, p: Place)
    requires ApplyEvent(w, head).Ok?
    ensures p != PlaceOf(head) ==> Lookup(ApplyEvent(w, head).value.rows, p) == Lookup(w.rows, p)
    ensures Lookup(ApplyEvent(w, head).value.rows, PlaceOf(head)) == Left(head)
    ensures Applicable(w.rows, head)
    ensures ApplyEvent(w, head).value.tombstones ==
      if head.change.Delete? then w.tombstones[head.id := TombstoneOf(head)] else w.tombstones
  {
  }

  lemma {:induction false} OthersElsewhere(head: Event, tail: seq<Event>)
    requires DistinctRows([head] + tail)
    ensures DistinctRows(tail) && forall e :: e in tail ==> PlaceOf(e) != PlaceOf(head)
  {
    var events := [head] + tail;
    forall e | e in tail ensures PlaceOf(e) != PlaceOf(head) {
      var i :| 0 <= i < |tail| && tail[i] == e;
      assert events[0] == head && events[i + 1] == e;
    }
    forall i, j | 0 <= i < j < |tail| ensures (tail[i].table, tail[i].key) != (tail[j].table, tail[j].key) {
      assert events[i + 1] == tail[i] && events[j + 1] == tail[j];
    }
  }

  lemma {:induction false} FreshTail(w: Work, head: Event, tail: seq<Event>, w': Work)
    requires FreshDeletes(w, [head] + tail)
    requires w'.tombstones == if head.change.Delete? then w.tombstones[head.id := TombstoneOf(head)] else w.tombstones
    ensures FreshDeletes(w', tail)
  {
    var events := [head] + tail;
    forall e | e in tail && e.change.Delete? ensures e.id !in w'.tombstones {
      var i :| 0 <= i < |tail| && tail[i] == e;
      assert events[0] == head && events[i + 1] == e && e in events;
    }
    assert forall i :: 0 <= i < |tail| ==> tail[i] == events[i + 1];
  }

  /** An applied event leaves the events at other places as applicable as they were. */
  lemma {:induction false} TailApplies(w: Work, head: Event, tail: seq<Event>)
    requires DistinctRows([head] + tail) && FreshDeletes(w, [head] + tail) && ApplyEvent(w, head).Ok?
    ensures Applicable(w.rows, head) && DistinctRows(tail) && FreshDeletes(ApplyEvent(w, head).value, tail)
    ensures forall e :: e in tail ==> (Applicable(ApplyEvent(w, head).value.rows, e) <==> Applicable(w.rows, e))
  {
    hide ApplyEvent, FreshDeletes, DistinctRows, Lookup;
    OthersElsewhere(head, tail);
    ElsewhereStays(w, head, PlaceOf(head));
    FreshTail(w, head, tail, ApplyEvent(w, head).value);
    forall e | e in tail ensures Applicable(ApplyEvent(w, head).value.rows, e) <==> Applicable(w.rows, e) {
      ElsewhereStays(w, head, PlaceOf(e));
    }
  }

  lemma {:induction false} EffectStep(w: Work, head: Event, tail: seq<Event>, done: Work)
    requires ApplyEvent(w, head).Ok?
    requires DistinctRows([head] + tail) && FreshDeletes(w, [head] + tail)
    requires Effect(ApplyEvent(w, head).value.rows, tail, done.rows)
    requires Buried(ApplyEvent(w, head).value.tombstones, tail, done.tombstones)
    ensures Effect(w.rows, [head] + tail, done.rows)
    ensures Buried(w.tombstones, [head] + tail, done.tombstones)
  {
    hide ApplyEvent, Lookup, Left, TombstoneOf, DistinctRows;
    OthersElsewhere(head, tail);
    ElsewhereStays(w, head, PlaceOf(head));
    assert forall e :: e in [head] + tail <==> e == head || e in tail;
    forall p | forall e :: e in [head] + tail ==> PlaceOf(e) != p ensures Lookup(done.rows, p) == Lookup(w.rows, p) {
      ElsewhereStays(w, head, p);
    }
    BuriedStep(w, head, tail, ApplyEvent(w, head).value.tombstones, done.tombstones);
  }

  lemma {:induction false} BuriedStep(w: Work, head: Event, tail: seq<Event>, middle: map<string, Tombstone>,
                                      after: map<string, Tombstone>)
    requires FreshDeletes(w, [head] + tail) && Buried(middle, tail, after)
    requires middle == if head.change.Delete? then w.tombstones[head.id := TombstoneOf(head)] else w.tombstones
    ensures Buried(w.tombstones, [head] + tail, after)
  {
    hide TombstoneOf;
    var events := [head] + tail;
    assert head in events && forall e :: e in tail ==> e in events;
    forall id | id in after && id !in w.tombstones ensures exists e :: e in events && e.change.Delete? && e.id == id {
      if id !in middle {
        var e :| e in tail && e.change.Delete? && e.id == id;
        assert e in events;
      }
    }
  }

  /** The rows after loading a table's rows, in order. */
  function Loaded(rows: Rows, table: string, material: seq<Row>): Rows
  {
    if material == [] then rows
    else
      var last := |material| - 1;
      Loaded(rows, table, material[..last])[(table, material[last].key) := material[last]]
  }

  /** The rows after loading several tables, in order. */
  function LoadedAll(rows: Rows, tables: seq<(string, seq<Row>)>): Rows
  {
    if tables == [] then rows
    else
      var last := |tables| - 1;
      Loaded(LoadedAll(rows, tables[..last]), tables[last].0, tables[last].1)
  }

  /** reference_cdc.py's `ReferenceCDCStore`. */
  class Store {
    var rows: Rows
    var transactions: map<string, (Digest, string)>
    var tombstones: map<string, Tombstone>

    constructor ()
      ensures rows == map[] && transactions == map[] && tombstones == map[]
    {
      rows, transactions, tombstones := map[], map[], map[];
    }

    /** Load tables: a later row replaces an earlier one with the same key. */
    method Initialize(tables: seq<(string, seq<Row>)>)
      modifies this
      ensures rows == LoadedAll(old(rows), tables)
      ensures transactions == old(transactions) && tombstones == old(tombstones)
    {
      var i := 0;
      while i < |tables|
        invariant 0 <= i <= |tables|
        invariant rows == LoadedAll(old(rows), tables[..i])
        invariant transactions == old(transactions) && tombstones == old(tombstones)
      {
        var (table, material) := tables[i];
        assert tables[..i + 1][..i] == tables[..i] && tables[..i + 1][i] == tables[i];
        var j := 0;
        while j < |material|
          invariant 0 <= j <= |material|
          invariant rows == Loaded(LoadedAll(old(rows), tables[..i]), table, material[..j])
          invariant transactions == old(transactions) && tombstones == old(tombstones)
        {
          assert material[..j + 1][..j] == material[..j] && material[..j + 1][j] == material[j];
          rows := rows[(table, material[j].key) := material[j]];
          j := j + 1;
        }
        assert material[..j] == material;
        i := i + 1;
      }
      assert tables[..i] == tables;
    }

    /** Apply a transaction atomically; a known id with the same digest is a replay. */
    method Apply(plan: Plan) returns (r: Outcome<bool>)
      modifies this
      ensures plan.tx in old(transactions) ==>
        && r == (if old(transactions)[plan.tx].0 == plan.digest then Ok(true) else Err(CB24R001_REPLAY_CONFLICT))
        && rows == old(rows) && tombstones == old(tombstones) && transactions == old(transactions)
      ensures plan.tx !in old(transactions) ==>
        match ApplyEvents(Work(old(rows), old(tombstones)), plan.events)
        case Err(code) =>
          r == Err(code) && rows == old(rows) && tombstones == old(tombstones) && transactions == old(transactions)
        case Ok(w) =>
          && r == Ok(false) && rows == w.rows && tombstones == w.tombstones
          && transactions == old(transactions)[plan.tx := (plan.digest, plan.commitLsn)]
    {
      if plan.tx in transactions {
        return if transactions[plan.tx].0 == plan.digest then Ok(true) else Err(CB24R001_REPLAY_CONFLICT);
      }
      var w := Work(rows, tombstones);
      var i := 0;
      while i < |plan.events|
        invariant 0 <= i <= |plan.events|
        invariant rows == old(rows) && tombstones == old(tombstones) && transactions == old(transactions)
        invariant ApplyEvents(Work(rows, tombstones), plan.events) == ApplyEvents(w, plan.events[i..])
      {
        var step := ApplyEvent(w, plan.events[i]);
        assert plan.events[i..][0] == plan.events[i] && plan.events[i..][1..] == plan.events[i + 1..];
        if step.Err? {
          return Err(step.code);
        }
        w := step.value;
        i := i + 1;
      }
      rows, tombstones := w.rows, w.tombstones;
      transactions := transactions[plan.tx := (plan.digest, plan.commitLsn)];
      r := Ok(false);
    }
  }
}
