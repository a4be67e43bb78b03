/**
What normalization guarantees: no record is lost, accepted events are strictly ordered
with distinct ids and lie where they should, and without payload conflicts the result
does not depend on the order of the records.
*/
module NormalizerFacts {
  import opened Common
  import opened Sorting
  import opened Lsn
  import opened Normalizer

  /** The dictionary holds the accepted events under their ids, each id once. */
  ghost predicate Indexed(a: Acc, s: Setting)
  {
    && |a.accepted| == |a.byId|
    && (forall e :: e in a.accepted ==>
          s.name(e.payload.identity) in a.byId && a.byId[s.name(e.payload.identity)] == e)
    && (forall id :: id in a.byId ==> a.byId[id] in a.accepted && s.name(a.byId[id].payload.identity) == id)
    && (forall i, j :: 0 <= i < j < |a.accepted| ==>
          s.name(a.accepted[i].payload.identity) != s.name(a.accepted[j].payload.identity))
  }

  ghost predicate Consistent(a: Acc, s: Setting)
  {
    && a.raw == |a.accepted| + a.duplicates + |a.quarantine|
    && Indexed(a, s)
    && (forall key :: key in a.orders ==> exists e :: e in a.accepted && EventKey(e, s.name) == key)
    && (forall q :: q in a.quarantine ==> q.code != CBN020_ORDER_KEY_CONFLICT)
  }

  /** The key ends with the id. */
  lemma KeyHoldsId(x: Envelope, y: Envelope, name: Identity -> string)
    requires EventKey(x, name) == EventKey(y, name)
    ensures name(x.payload.identity) == name(y.payload.identity)
  {
    hide PositionKey;
    assert EventKey(x, name)[4..] == Chars(name(x.payload.identity));
    assert EventKey(y, name)[4..] == Chars(name(y.payload.identity));
    CharsInjective(name(x.payload.identity), name(y.payload.identity));
  }

  /** A normalized record never meets its order key under another id, so CBN020 is never raised. */
  lemma OrderKeyIsNew(a: Acc, e: Envelope, s: Setting)
    requires Consistent(a, s) && s.name(e.payload.identity) !in a.byId
    ensures EventKey(e, s.name) !in a.orders
  {
    hide EventKey;
    if EventKey(e, s.name) in a.orders {
      var x :| x in a.accepted && EventKey(x, s.name) == EventKey(e, s.name);
      KeyHoldsId(x, e, s.name);
    }
  }

  lemma NeverOrderConflict(r: Raw, m: Manifest, s: Setting)
    ensures Normalized(r, m, s).Err? ==> Normalized(r, m, s).code != CBN020_ORDER_KEY_CONFLICT
  {
    hide PositionKey, Compare;
  }

  lemma NamesApart(accepted: seq<Envelope>, e: Envelope, name: Identity -> string)
    requires forall i, j :: 0 <= i < j < |accepted| ==>
      name(accepted[i].payload.identity) != name(accepted[j].payload.identity)
    requires forall x :: x in accepted ==> name(x.payload.identity) != name(e.payload.identity)
    ensures forall i, j :: 0 <= i < j < |accepted + [e]| ==>
      name((accepted + [e])[i].payload.identity) != name((accepted + [e])[j].payload.identity)
  {
    forall i, j | 0 <= i < j < |accepted + [e]|
      ensures name((accepted + [e])[i].payload.identity) != name((accepted + [e])[j].payload.identity)
    {
      assert accepted[i] in accepted;
    }
  }

  lemma IndexStep(a: Acc, a': Acc, e: Envelope, s: Setting)
    requires Indexed(a, s) && s.name(e.payload.identity) !in a.byId
    requires a'.accepted == a.accepted + [e] && a'.byId == a.byId[s.name(e.payload.identity) := e]
    ensures Indexed(a', s)
  {
    NamesApart(a.accepted, e, s.name);
    assert forall x :: x in a'.accepted <==> x in a.accepted || x == e;
    assert forall x :: x in a.accepted ==> s.name(x.payload.identity) != s.name(e.payload.identity);
  }

  lemma AcceptStep(a: Acc, a': Acc, e: Envelope, s: Setting)
    requires Consistent(a, s) && s.name(e.payload.identity) !in a.byId
    requires a' == a.(accepted := a.accepted + [e], byId := a.byId[s.name(e.payload.identity) := e],
                      orders := a.orders[EventKey(e, s.name) := e.payload], raw := a.raw + 1)
    ensures Consistent(a', s)
  {
    hide EventKey, Indexed;
    IndexStep(a, a', e, s);
    assert a'.accepted[|a.accepted|] == e;
    forall key | key in a'.orders ensures exists x :: x in a'.accepted && EventKey(x, s.name) == key {
      if key in a.orders {
        var x :| x in a.accepted && EventKey(x, s.name) == key;
        assert x in a'.accepted;
      } else {
        assert e in a'.accepted;
      }
    }
  }

  /** A record that is not accepted only counts. */
  lemma CountStep(a: Acc, a': Acc, s: Setting)
    requires Consistent(a, s) && a'.accepted == a.accepted && a'.byId == a.byId && a'.orders == a.orders
    requires a'.raw == |a'.accepted| + a'.duplicates + |a'.quarantine|
    requires forall q :: q in a'.quarantine ==> q.code != CBN020_ORDER_KEY_CONFLICT
    ensures Consistent(a', s)
  {
    hide EventKey;
  }

  lemma TakeKeeps(a: Acc, r: Record, m: Manifest, s: Setting)
    requires Consistent(a, s)
    ensures Consistent(Take(a, r, m, s), s)
  {
    hide Normalized, EventKey, Indexed;
    NeverOrderConflict(r.raw, m, s);
    if Normalized(r.raw, m, s).Ok? {
      var e := Normalized(r.raw, m, s).value;
      if s.name(e.payload.identity) !in a.byId {
        OrderKeyIsNew(a, e, s);
        AcceptStep(a, Take(a, r, m, s), e, s);
      } else {
        CountStep(a, Take(a, r, m, s), s);
      }
    } else {
      CountStep(a, Take(a, r, m, s), s);
    }
  }

  lemma {:induction false} AllConsistent(records: seq<Record>, m: Manifest, s: Setting)
    ensures Consistent(TakeAll(records, m, s), s) && TakeAll(records, m, s).raw == |records|
  {
    hide Take, Consistent;
    if records == [] {
      assert Consistent(START, s) by { NothingIsConsistent(s); }
    } else {
      var front := records[..|records| - 1];
      AllConsistent(front, m, s);
      TakeKeeps(TakeAll(front, m, s), records[|records| - 1], m, s);
      TakeCounts(TakeAll(front, m, s), records[|records| - 1], m, s);
    }
  }

  lemma NothingIsConsistent(s: Setting)
    ensures Consistent(START, s)
  {
  }

  lemma TakeCounts(a: Acc, r: Record, m: Manifest, s: Setting)
    ensures Take(a, r, m, s).raw == a.raw + 1
  {
    hide Normalized;
  }

  lemma KeysTellApart(a: Acc, s: Setting)
    requires Consistent(a, s)
    ensures InjectiveOn(a.accepted, e => EventKey(e, s.name))
  {
    hide EventKey;
    var key := (e: Envelope) => EventKey(e, s.name);
    forall x, y | x in a.accepted && y in a.accepted && key(x) == key(y) ensures x == y {
      KeyHoldsId(x, y, s.name);
    }
  }

  lemma AcceptedDistinct(a: Acc, s: Setting)
    requires Consistent(a, s)
    ensures Distinct(a.accepted)
  {
  }

  /** How many records the objects of a manifest declare. */
  function Declared(objects: seq<Object>, n: nat): nat
    requires n <= |objects|
  {
    if n == 0 then 0 else Declared(objects, n - 1) + objects[n - 1].rowCount
  }

  lemma {:induction false} ReadCounts(objects: seq<Object>, files: map<string, File>, n: nat)
    requires n <= |objects| && (forall o :: o in objects ==> o.path in files) && ReadAll(objects, files, n).Ok?
    ensures |ReadAll(objects, files, n).value| == Declared(objects, n)
  {
    if n > 0 { ReadCounts(objects, files, n - 1); }
  }

  /**
  Every raw record is accepted, counted as a duplicate, or quarantined, and none twice;
  the accepted events are strictly ordered by their keys with distinct ids; an order
  key conflict is never reported.
  */
  lemma RecordsConserved(m: Manifest, s: Setting)
    requires Bundled(m, s).Ok?
    ensures var b := Bundled(m, s).value;
            && b.raw == |b.canonical| + b.duplicates + |b.quarantine| == Declared(m.objects, |m.objects|)
            && (forall i, j :: 0 <= i < j < |b.canonical| ==>
                  && Le(EventKey(b.canonical[i], s.name), EventKey(b.canonical[j], s.name))
                  && EventKey(b.canonical[i], s.name) != EventKey(b.canonical[j], s.name)
                  && s.name(b.canonical[i].payload.identity) != s.name(b.canonical[j].payload.identity))
            && (forall q :: q in b.quarantine ==> q.code != CBN020_ORDER_KEY_CONFLICT)
            && (b.passed <==> b.quarantine == [])
  {
    hide EventKey, ManifestFault, Take, Chars, Le;
    FilesThere(m, s.files);
    var records := ReadAll(m.objects, s.files, |m.objects|).value;
    var a := TakeAll(records, m, s);
    AllConsistent(records, m, s);
    ReadCounts(m.objects, s.files, |m.objects|);
    CanonicalIsStrict(a, s);
    SortFacts(a.accepted, e => EventKey(e, s.name));
  }

  lemma CanonicalIsStrict(a: Acc, s: Setting)
    requires Consistent(a, s)
    ensures var c := SortBy(a.accepted, e => EventKey(e, s.name));
            forall i, j :: 0 <= i < j < |c| ==>
              && Le(EventKey(c[i], s.name), EventKey(c[j], s.name)) && EventKey(c[i], s.name) != EventKey(c[j], s.name)
              && s.name(c[i].payload.identity) != s.name(c[j].payload.identity)
  {
    hide EventKey, Le, Chars;
    var key := (e: Envelope) => EventKey(e, s.name);
    var c := SortBy(a.accepted, key);
    SortFacts(a.accepted, key);
    AcceptedDistinct(a, s);
    DistinctPermutation(a.accepted, c);
    KeysTellApart(a, s);
    forall i, j | 0 <= i < j < |c|
      ensures Le(EventKey(c[i], s.name), EventKey(c[j], s.name)) && EventKey(c[i], s.name) != EventKey(c[j], s.name)
      ensures s.name(c[i].payload.identity) != s.name(c[j].payload.identity)
    {
      assert Le(key(c[i]), key(c[j]));
      assert c[i] in c && c[j] in c && c[i] != c[j];
    }
  }

  /** An accepted change lies in (S, F], an accepted snapshot row at S. */
  ghost predicate InPlace(e: Envelope, m: Manifest)
  {
    var id := e.payload.identity;
    && PositionKey(id.lsn).Some? && PositionKey(m.snapshotFrontier).Some? && PositionKey(m.end).Some?
    && (if id.operation == "snapshot" then Parse(id.lsn) == Parse(m.snapshotFrontier)
        else Parse(m.snapshotFrontier).value < Parse(id.lsn).value <= Parse(m.end).value)
    && ImagesFit(id.operation, e.payload.before, e.payload.after)
  }

  lemma NormalizedInPlace(r: Raw, m: Manifest, s: Setting)
    requires Normalized(r, m, s).Ok?
    ensures InPlace(Normalized(r, m, s).value, m)
  {
    hide Words, Compare;
    CompareIsNumeric(r.lsn, m.snapshotFrontier);
    CompareIsNumeric(r.lsn, m.end);
  }

  lemma {:induction false} AllInPlace(records: seq<Record>, m: Manifest, s: Setting)
    ensures forall e :: e in TakeAll(records, m, s).accepted ==>
              InPlace(e, m) && exists r :: r in records && Normalized(r.raw, m, s) == Ok(e)
  {
    hide Normalized, InPlace, EventKey;
    if records != [] {
      var front, last := records[..|records| - 1], records[|records| - 1];
      assert records == front + [last];
      AllInPlace(front, m, s);
      if Normalized(last.raw, m, s).Ok? { NormalizedInPlace(last.raw, m, s); }
      var a, a' := TakeAll(front, m, s), TakeAll(records, m, s);
      forall e | e in a'.accepted
        ensures InPlace(e, m) && exists r :: r in records && Normalized(r.raw, m, s) == Ok(e)
      {
        if e in a.accepted {
          var r :| r in front && Normalized(r.raw, m, s) == Ok(e);
          assert r in records;
        } else {
          assert Normalized(last.raw, m, s) == Ok(e) && last in records;
        }
      }
    }
  }

  /** No two records normalize to the same id with different payloads. */
  ghost predicate ConflictFree(records: seq<Record>, m: Manifest, s: Setting)
  {
    forall r, q :: r in records && q in records && Normalized(r.raw, m, s).Ok? && Normalized(q.raw, m, s).Ok? &&
                   s.name(Normalized(r.raw, m, s).value.payload.identity)
                       == s.name(Normalized(q.raw, m, s).value.payload.identity) ==>
      Normalized(r.raw, m, s).value.payload == Normalized(q.raw, m, s).value.payload
  }

  function PayloadOf(e: Envelope): Payload { e.payload }

  /** Without conflicts, the payloads of the accepted events are those of all normalized records. */
  lemma {:induction false} EveryPayloadKept(records: seq<Record>, m: Manifest, s: Setting)
    requires ConflictFree(records, m, s)
    ensures forall r :: r in records && Normalized(r.raw, m, s).Ok? ==>
              exists e :: e in TakeAll(records, m, s).accepted && e.payload == Normalized(r.raw, m, s).value.payload
  {
    hide Normalized, EventKey, Take, Consistent;
    if records != [] {
      var front, last := records[..|records| - 1], records[|records| - 1];
      assert records == front + [last];
      EveryPayloadKept(front, m, s);
      AllConsistent(front, m, s);
      assert ConflictFree(front, m, s);
      if Normalized(last.raw, m, s).Ok? { LastIsKept(TakeAll(front, m, s), last, front, m, s); }
      TakeGrows(TakeAll(front, m, s), last, m, s);
    }
  }

  lemma TakeGrows(a: Acc, r: Record, m: Manifest, s: Setting)
    ensures forall e :: e in a.accepted ==> e in Take(a, r, m, s).accepted
  {
    hide Normalized, EventKey;
  }

  lemma LastIsKept(a: Acc, last: Record, front: seq<Record>, m: Manifest, s: Setting)
    requires Consistent(a, s) && a == TakeAll(front, m, s) && ConflictFree(front + [last], m, s)
    requires Normalized(last.raw, m, s).Ok?
    ensures exists e :: e in Take(a, last, m, s).accepted && e.payload == Normalized(last.raw, m, s).value.payload
  {
    hide Normalized, EventKey;
    var x := Normalized(last.raw, m, s).value;
    var id := s.name(x.payload.identity);
    if id in a.byId {
      AllInPlace(front, m, s);
      var y := a.byId[id];
      var r :| r in front && Normalized(r.raw, m, s) == Ok(y);
      assert r in front + [last] && last in front + [last];
      assert y in Take(a, last, m, s).accepted && y.payload == x.payload;
    } else {
      OrderKeyIsNew(a, x, s);
      assert x in Take(a, last, m, s).accepted;
    }
  }

  lemma PayloadsAgree(a: seq<Record>, b: seq<Record>, m: Manifest, s: Setting)
    requires multiset(a) == multiset(b) && ConflictFree(a, m, s)
    ensures ConflictFree(b, m, s)
    ensures forall e :: e in TakeAll(a, m, s).accepted ==>
              exists x :: x in TakeAll(b, m, s).accepted && x.payload == e.payload
  {
    hide Normalized, Take;
    forall r ensures r in b <==> r in a { assert r in multiset(b) <==> r in multiset(a); }
    EveryPayloadKept(b, m, s);
    AllInPlace(a, m, s);
    forall e | e in TakeAll(a, m, s).accepted
      ensures exists x :: x in TakeAll(b, m, s).accepted && x.payload == e.payload
    {
      var r :| r in a && Normalized(r.raw, m, s) == Ok(e);
      assert r in b;
    }
  }

  lemma PayloadsDistinct(a: Acc, s: Setting)
    requires Consistent(a, s)
    ensures Distinct(Mapped(a.accepted, PayloadOf))
    ensures forall x, y :: x in Mapped(a.accepted, PayloadOf) && y in Mapped(a.accepted, PayloadOf) &&
                           s.name(x.identity) == s.name(y.identity) ==>
              x == y
  {
    hide Mapped;
    var ps := Mapped(a.accepted, PayloadOf);
    forall i | 0 <= i < |ps| ensures ps[i] == a.accepted[i].payload && a.accepted[i] in a.accepted {}
    forall x, y | x in ps && y in ps && s.name(x.identity) == s.name(y.identity) ensures x == y {
      var i :| 0 <= i < |ps| && ps[i] == x;
      var j :| 0 <= j < |ps| && ps[j] == y;
      assert a.accepted[i] in a.accepted && a.accepted[j] in a.accepted;
    }
  }

  lemma PayloadKeysTellApart(a: Acc, s: Setting)
    requires Consistent(a, s)
    ensures InjectiveOn(Mapped(a.accepted, PayloadOf), (p: Payload) => OrderKey(p.identity, s.name))
  {
    hide PositionKey;
    PayloadsDistinct(a, s);
    var key := (p: Payload) => OrderKey(p.identity, s.name);
    var ps := Mapped(a.accepted, PayloadOf);
    forall x, y | x in ps && y in ps && key(x) == key(y) ensures x == y {
      KeyHoldsId(Envelope(x, ""), Envelope(y, ""), s.name);
    }
  }

  /**
  Without payload conflicts the sequence of accepted payloads, and with it that of
  event ids, is the same for every order of the records.
  */
  lemma OrderDoesNotMatter(a: seq<Record>, b: seq<Record>, m: Manifest, s: Setting)
    requires multiset(a) == multiset(b) && ConflictFree(a, m, s)
    ensures var key := (e: Envelope) => EventKey(e, s.name);
            Mapped(SortBy(TakeAll(a, m, s).accepted, key), PayloadOf)
                == Mapped(SortBy(TakeAll(b, m, s).accepted, key), PayloadOf)
  {
    hide Take, OrderKey, ConflictFree, Consistent;
    var x, y := TakeAll(a, m, s), TakeAll(b, m, s);
    AllConsistent(a, m, s);
    AllConsistent(b, m, s);
    PayloadsAgree(a, b, m, s);
    PayloadsAgree(b, a, m, s);
    PayloadsDistinct(x, s);
    PayloadsDistinct(y, s);
    SamePayloads(x.accepted, y.accepted);
    PayloadKeysTellApart(x, s);
    var key := (e: Envelope) => EventKey(e, s.name);
    var key' := (p: Payload) => OrderKey(p.identity, s.name);
    SortMapped(x.accepted, PayloadOf, key, key');
    SortMapped(y.accepted, PayloadOf, key, key');
    SortForgetsOrder(Mapped(x.accepted, PayloadOf), Mapped(y.accepted, PayloadOf), key');
  }

  lemma SamePayloads(a: seq<Envelope>, b: seq<Envelope>)
    requires forall e :: e in a ==> exists x :: x in b && x.payload == e.payload
    requires forall e :: e in b ==> exists x :: x in a && x.payload == e.payload
    requires Distinct(Mapped(a, PayloadOf)) && Distinct(Mapped(b, PayloadOf))
    ensures multiset(Mapped(a, PayloadOf)) == multiset(Mapped(b, PayloadOf))
  {
    PayloadsWithin(a, b);
    PayloadsWithin(b, a);
    assert Elements(Mapped(a, PayloadOf)) == Elements(Mapped(b, PayloadOf));
    DistinctMultiset(Mapped(a, PayloadOf));
    DistinctMultiset(Mapped(b, PayloadOf));
  }

  lemma PayloadsWithin(a: seq<Envelope>, b: seq<Envelope>)
    requires forall e :: e in a ==> exists x :: x in b && x.payload == e.payload
    ensures Elements(Mapped(a, PayloadOf)) <= Elements(Mapped(b, PayloadOf))
  {
    var ps, qs := Mapped(a, PayloadOf), Mapped(b, PayloadOf);
    forall i | 0 <= i < |a| ensures ps[i] in qs {
      assert ps[i] == PayloadOf(a[i]) && a[i] in a;
      var x :| x in b && x.payload == a[i].payload;
      var j :| 0 <= j < |b| && b[j] == x;
      assert qs[j] == PayloadOf(b[j]);
    }
  }

  predicate Covers(o: Object, lsn: int)
  {
    PositionKey(o.start).Some? && PositionKey(o.end).Some? && Parse(o.start).value < lsn <= Parse(o.end).value
  }

  ghost predicate Covered(objects: seq<Object>, lsn: int) { exists i :: 0 <= i < |objects| && Covers(objects[i], lsn) }

  lemma {:induction false} ChainTiles(objects: seq<Object>, files: map<string, File>, seen: map<string, string>,
                                      prior: string)
    requires ChainEnd(objects, files, seen, prior).Ok? && PositionKey(prior).Some?
    ensures PositionKey(ChainEnd(objects, files, seen, prior).value).Some?
    ensures Parse(prior).value <= Parse(ChainEnd(objects, files, seen, prior).value).value
    ensures forall lsn: int :: Covered(objects, lsn) <==>
              Parse(prior).value < lsn <= Parse(ChainEnd(objects, files, seen, prior).value).value
    ensures forall i, j, lsn: int :: 0 <= i < j < |objects| && Covers(objects[i], lsn) ==> !Covers(objects[j], lsn)
    ensures forall i, j :: 0 <= i < j < |objects| ==> objects[i].id != objects[j].id
    ensures forall i :: 0 <= i < |objects| ==> objects[i].id !in seen
    decreases |objects|
  {
    hide Words, Compare;
    if objects != [] {
      var o, tail := objects[0], objects[1..];
      CompareIsNumeric(o.start, o.end);
      ChainTiles(tail, files, seen[o.id := o.sha], o.end);
      assert objects == [o] + tail;
      assert forall i :: 0 <= i < |tail| ==> tail[i] == objects[i + 1];
      forall lsn: int ensures Covered(objects, lsn) <==> Covers(o, lsn) || Covered(tail, lsn) {
        if Covered(tail, lsn) {
          var i :| 0 <= i < |tail| && Covers(tail[i], lsn);
          assert Covers(objects[i + 1], lsn);
        }
        if Covers(o, lsn) { assert Covers(objects[0], lsn); }
      }
      forall i, j, lsn: int | 0 <= i < j < |objects| && Covers(objects[i], lsn) ensures !Covers(objects[j], lsn) {
        assert Covers(tail[j - 1], lsn) ==> Covered(tail, lsn);
        assert i > 0 ==> Covers(tail[i - 1], lsn);
      }
      forall i, j | 0 <= i < j < |objects| ensures objects[i].id != objects[j].id {
        assert objects[j] == tail[j - 1];
      }
    }
  }

  /** The objects of an accepted manifest have distinct ids and tile (S, F]: each position lies in exactly one. */
  lemma ObjectsTile(m: Manifest, files: map<string, File>, lsn: int)
    requires ManifestFault(m, files) == None
    ensures PositionKey(m.snapshotFrontier).Some? && PositionKey(m.end).Some?
    ensures Parse(m.snapshotFrontier).value < lsn <= Parse(m.end).value <==> Covered(m.objects, lsn)
    ensures forall i, j :: 0 <= i < j < |m.objects| ==>
              m.objects[i].id != m.objects[j].id && !(Covers(m.objects[i], lsn) && Covers(m.objects[j], lsn))
  {
    hide Words, Compare, Covers;
    ChainTiles(m.objects, files, map[], m.start);
  }

  /**
  Of two records of one event the first is kept, with its own ingestion stamp: the order
  of the records decides which stamp the accepted event carries.
  */
  lemma FirstRecordIsKept(first: Record, second: Record, m: Manifest, s: Setting)
    requires Normalized(first.raw, m, s).Ok? && Normalized(second.raw, m, s).Ok?
    requires Normalized(first.raw, m, s).value.payload == Normalized(second.raw, m, s).value.payload
    ensures TakeAll([first, second], m, s).accepted == [Normalized(first.raw, m, s).value]
    ensures TakeAll([second, first], m, s).accepted == [Normalized(second.raw, m, s).value]
    ensures TakeAll([first, second], m, s).duplicates == 1
  {
    hide Normalized, EventKey;
    assert [first, second][..1] == [first] && [second, first][..1] == [second];
    assert [first][..0] == [] && [second][..0] == [];
    assert TakeAll([first], m, s) == Take(START, first, m, s) && TakeAll([second], m, s) == Take(START, second, m, s);
  }
}
