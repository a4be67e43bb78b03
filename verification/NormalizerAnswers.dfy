/**
What normalization answers: which records and which manifests are taken, what happens to
each record given those before it, and the cause of every refusal.
*/
module NormalizerAnswers {
  import opened Common
  import opened Sorting
  import opened Events
  import opened Lsn
  import opened Normalizer
  import opened NormalizerFacts

  /** The position a text denotes, or -1; lower-case digits are malformed here. */
  function Place(s: string): int { if UpperOnly(s) then Position(s) else -1 }

  lemma PlaceMeans(s: string)
    ensures Place(s) >= -1 && (Place(s) >= 0 <==> PositionKey(s).Some?)
  {
  }

  lemma PlacesCompare(s: string, t: string)
    requires Place(s) >= 0 && Place(t) >= 0
    ensures PositionKey(s).Some? && PositionKey(t).Some?
    ensures Compare(s, t) < 0 <==> Place(s) < Place(t)
    ensures Compare(s, t) == 0 <==> Place(s) == Place(t)
  {
    hide Words;
    CompareIsNumeric(s, t);
  }

  /** The record is written under the one profile, with all its fields and no others. */
  predicate Profiled(r: Raw)
  {
    && r.unknown == {} && r.missing == {}
    && r.profileId == "changebridge.synthetic-dms-s3.full-images" && r.profileVersion == "1.0.0"
  }

  /** The record names a known contract by its digest. */
  predicate Authorized(r: Raw, s: Setting)
  {
    && (r.contractId, r.contractVersion) in s.contracts
    && r.contractDigest == s.contracts[(r.contractId, r.contractVersion)]
  }

  /** Contract and schema digest are those of the contract the record names. */
  predicate Contracted(r: Raw, s: Setting) { Authorized(r, s) && r.schemaDigest == r.contractDigest }

  predicate IsChange(r: Raw) { r.operation == "insert" || r.operation == "update" || r.operation == "delete" }

  predicate Operates(r: Raw) { r.operation == "snapshot" || IsChange(r) }

  predicate Keyed(r: Raw) { r.primaryKey.Some? && r.primaryKey.value != [] }

  /** Rows come with an after image, deletions without, updates and deletions with a before image. */
  predicate Imaged(r: Raw)
  {
    && (r.after.Some? <==> r.operation != "delete")
    && (r.before.Some? <==> r.operation == "update" || r.operation == "delete")
  }

  /** Its images satisfy the contract's schema. */
  predicate Schematic(r: Raw, s: Setting)
  {
    && (r.after.Some? ==> s.fits(r.contractId, r.contractVersion, r.after.value))
    && (r.before.Some? ==> s.fits(r.contractId, r.contractVersion, r.before.value))
  }

  predicate KindFits(r: Raw) { r.kind == if r.operation == "snapshot" then "snapshot" else "cdc" }

  /** Snapshot rows belong to a snapshot batch, changes to a transaction. */
  predicate Transacted(r: Raw)
  {
    && r.tx.Some? && r.tx.value != "" && r.txSequence.Some? && r.sequence.Some?
    && (r.operation == "snapshot" <==> |r.tx.value| >= 15 && r.tx.value[..15] == "snapshot-batch:")
  }

  /** Snapshot rows lie at the boundary, changes after it and up to the manifest's end. */
  predicate Positioned(r: Raw, m: Manifest)
  {
    if r.operation == "snapshot" then Place(r.lsn) == Place(m.snapshotFrontier)
    else Place(m.snapshotFrontier) < Place(r.lsn) <= Place(m.end)
  }

  /** A date and a time, separated by a T and ending in Z. */
  predicate IsUtc(s: string) { |s| > 0 && s[|s| - 1] == 'Z' && exists i :: 0 <= i < |s| && s[i] == 'T' }

  predicate Timed(r: Raw) { IsUtc(r.committedAt) && IsUtc(r.ingestedAt) }

  lemma UtcMeans(s: string)
    ensures UtcText(s) <==> IsUtc(s)
  {
    if 'T' in s {
      var i :| 0 <= i < |s| && s[i] == 'T';
    }
  }

  /** The records that are normalized. */
  predicate Normal(r: Raw, m: Manifest, s: Setting)
  {
    && Profiled(r) && r.gen == m.gen && r.run == m.run && Contracted(r, s) && Operates(r) && Keyed(r) && Imaged(r)
    && Schematic(r, s) && KindFits(r) && Transacted(r) && Place(r.lsn) >= 0 && Positioned(r, m) && Timed(r)
    && s.envelope(EventOf(r))
  }

  /** Why a record is not normalized, given that the manifest's positions are well formed. */
  predicate RecordCause(r: Raw, m: Manifest, s: Setting, code: Code)
  {
    var known := r.unknown == {} && r.missing == {};
    var named := Profiled(r) && r.gen == m.gen && r.run == m.run;
    var contracted := named && Contracted(r, s);
    var keyed := contracted && Operates(r) && Keyed(r);
    var imaged := keyed && Imaged(r) && Schematic(r, s);
    var transacted := imaged && KindFits(r) && Transacted(r);
    var positioned := transacted && Place(r.lsn) >= 0 && Positioned(r, m);
    match code
    case CBN002_UNKNOWN_FIELD => r.unknown != {}
    case CBN016_TRANSACTION_METADATA =>
      r.unknown == {} && (r.missing != {} || (imaged && KindFits(r) && !Transacted(r)))
    case CBN001_UNKNOWN_PROFILE => known && !Profiled(r)
    case CBN010_GENERATION_MISMATCH => Profiled(r) && r.gen != m.gen
    case CBN011_RUN_MISMATCH => Profiled(r) && r.gen == m.gen && r.run != m.run
    case CBN012_CONTRACT_MISMATCH => named && !Authorized(r, s)
    case CBN013_SCHEMA_MISMATCH =>
      named && Authorized(r, s) && (!Contracted(r, s) || (keyed && Imaged(r) && !Schematic(r, s)))
    case CBN017_UNSUPPORTED_OPERATION => contracted && (!Operates(r) || (imaged && !KindFits(r)))
    case CBN018_PRIMARY_KEY => contracted && Operates(r) && !Keyed(r)
    case CBN019_IMAGE_COMBINATION => keyed && !Imaged(r)
    case CBN014_POSITION_MALFORMED => transacted && Place(r.lsn) < 0
    case CBN015_POSITION_BOUNDARY => transacted && Place(r.lsn) >= 0 && !Positioned(r, m)
    case CBN029_INVALID_TIMESTAMP => positioned && !Timed(r)
    case CBN023_SCALAR_LOSS => positioned && Timed(r) && !s.envelope(EventOf(r))
    case _ => false
  }

  lemma PrefixMeans(s: string)
    ensures StartsWith(s, "snapshot-batch:") <==> |s| >= 15 && s[..15] == "snapshot-batch:"
  {
  }

  /**
  A record is normalized exactly if it is normal, by conditions on its own fields, the
  manifest and the contracts; else its code names a condition that fails.
  */
  lemma RecordAnswer(r: Raw, m: Manifest, s: Setting)
    requires Place(m.snapshotFrontier) >= 0 && Place(m.end) >= 0
    ensures var n := Normalized(r, m, s);
      && (n.Ok? <==> Normal(r, m, s))
      && (n.Err? ==> RecordCause(r, m, s, n.code))
  {
    hide Compare, PositionKey, UtcText, IsUtc, Place, StartsWith;
    UtcMeans(r.committedAt);
    UtcMeans(r.ingestedAt);
    PlaceMeans(r.lsn);
    PlaceMeans(m.snapshotFrontier);
    PlaceMeans(m.end);
    if Place(r.lsn) >= 0 {
      PlacesCompare(r.lsn, m.snapshotFrontier);
      PlacesCompare(r.lsn, m.end);
    }
    if r.tx.Some? { PrefixMeans(r.tx.value); }
  }

  /** The event says what the record says. */
  predicate Copies(e: Envelope, r: Raw)
  {
    var p := e.payload;
    && Some(p.identity.tx) == r.tx && Some(p.identity.txSequence) == r.txSequence
    && Some(p.identity.sequence) == r.sequence && Some(p.identity.primaryKey) == r.primaryKey
    && (p.identity.source, p.identity.lsn, p.identity.operation) == (r.source, r.lsn, r.operation)
    && (p.before, p.after) == (r.before, r.after) && (p.run, p.gen) == (r.run, r.gen)
    && (p.contractId, p.contractVersion, p.contractDigest) == (r.contractId, r.contractVersion, r.contractDigest)
    && (p.schemaVersion, p.committedAt, e.ingestedAt) == (r.schemaVersion, r.committedAt, r.ingestedAt)
  }

  lemma RecordCopied(r: Raw, m: Manifest, s: Setting)
    requires Normalized(r, m, s).Ok?
    ensures Copies(Normalized(r, m, s).value, r)
  {
    hide RecordFault;
    RecordHas(r, m, s);
  }

  lemma RecordHas(r: Raw, m: Manifest, s: Setting)
    requires RecordFault(r, m, s) == None
    ensures r.primaryKey.Some? && r.tx.Some? && r.txSequence.Some? && r.sequence.Some?
  {
    hide Compare, PositionKey, UtcText;
  }

  /** The record is normalized to an event of this name. */
  predicate Names(r: Record, m: Manifest, s: Setting, id: string)
  {
    Normalized(r.raw, m, s).Ok? && s.name(Normalized(r.raw, m, s).value.payload.identity) == id
  }

  /** The first record that is normalized under the name. */
  ghost predicate FirstOf(records: seq<Record>, m: Manifest, s: Setting, id: string, i: int)
  {
    0 <= i < |records| && Names(records[i], m, s, id) && forall j :: 0 <= j < i ==> !Names(records[j], m, s, id)
  }

  lemma {:induction false} StoredIsFirst(records: seq<Record>, m: Manifest, s: Setting, id: string)
    ensures var a := TakeAll(records, m, s);
      && (id in a.byId <==> exists i :: FirstOf(records, m, s, id, i))
      && (forall i :: FirstOf(records, m, s, id, i) ==> a.byId[id] == Normalized(records[i].raw, m, s).value)
  {
    hide Normalized, EventKey, Consistent;
    if records != [] {
      var n := |records| - 1;
      var front, last := records[..n], records[n];
      StoredIsFirst(front, m, s, id);
      AllConsistent(front, m, s);
      LastOfName(TakeAll(front, m, s), last, m, s, id);
      forall i ensures FirstOf(records, m, s, id, i) <==>
                       FirstOf(front, m, s, id, i)
                       || (i == n && Names(last, m, s, id) && forall j :: !FirstOf(front, m, s, id, j))
      {
        FirstSplits(records, m, s, id, i);
      }
      if Names(last, m, s, id) && forall j :: !FirstOf(front, m, s, id, j) { assert FirstOf(records, m, s, id, n); }
      if i :| FirstOf(front, m, s, id, i) { assert FirstOf(records, m, s, id, i); }
    }
  }

  lemma FirstSplits(records: seq<Record>, m: Manifest, s: Setting, id: string, i: int)
    requires records != []
    ensures var n := |records| - 1;
      FirstOf(records, m, s, id, i) <==>
        || FirstOf(records[..n], m, s, id, i)
        || (i == n && Names(records[n], m, s, id) && forall j :: !FirstOf(records[..n], m, s, id, j))
  {
    hide Names;
    var n := |records| - 1;
    var front := records[..n];
    assert forall j :: 0 <= j < n ==> front[j] == records[j];
    if i == n && Names(records[n], m, s, id) && !FirstOf(records, m, s, id, n) {
      NamedHasFirst(front, m, s, id);
    }
  }

  lemma {:induction false} NamedHasFirst(records: seq<Record>, m: Manifest, s: Setting, id: string)
    ensures || (forall j :: 0 <= j < |records| ==> !Names(records[j], m, s, id))
            || exists i :: FirstOf(records, m, s, id, i)
  {
    hide Names;
    if records != [] {
      var n := |records| - 1;
      var front := records[..n];
      NamedHasFirst(front, m, s, id);
      assert forall j :: 0 <= j < n ==> front[j] == records[j];
      if i :| FirstOf(front, m, s, id, i) {
        assert FirstOf(records, m, s, id, i);
      } else if Names(records[n], m, s, id) {
        assert FirstOf(records, m, s, id, n);
      }
    }
  }

  lemma LastOfName(a: Acc, r: Record, m: Manifest, s: Setting, id: string)
    requires Consistent(a, s)
    ensures var a' := Take(a, r, m, s);
      && (id in a'.byId <==> id in a.byId || Names(r, m, s, id))
      && (id in a.byId ==> a'.byId[id] == a.byId[id])
      && (id !in a.byId && Names(r, m, s, id) ==> a'.byId[id] == Normalized(r.raw, m, s).value)
  {
    hide Normalized, EventKey, Consistent;
    if Normalized(r.raw, m, s).Ok? {
      var e := Normalized(r.raw, m, s).value;
      if s.name(e.payload.identity) !in a.byId { OrderKeyIsNew(a, e, s); }
    }
  }

  datatype Fate = Accepted | Duplicate | Refused(code: Code)

  /**
  What is to happen to a record after others: what cannot be normalized is refused; the
  first of its name is accepted; a later one is a duplicate if its payload is the first
  one's, and refused as a conflict if not.
  */
  ghost predicate FateIs(front: seq<Record>, r: Record, m: Manifest, s: Setting, fate: Fate)
  {
    match Normalized(r.raw, m, s)
    case Err(code) => fate == Refused(code)
    case Ok(e) =>
      var id := s.name(e.payload.identity);
      if forall i :: !FirstOf(front, m, s, id, i) then fate == Accepted
      else exists i :: FirstOf(front, m, s, id, i)
             && fate == if Normalized(front[i].raw, m, s).value.payload == e.payload then Duplicate
                        else Refused(CBN021_EVENT_PAYLOAD_CONFLICT)
  }

  /** The tallies after a record with this fate. */
  ghost predicate Tallied(a: Acc, a': Acc, r: Record, m: Manifest, s: Setting, fate: Fate)
  {
    && a'.raw == a.raw + 1
    && match fate
       case Accepted =>
         && Normalized(r.raw, m, s).Ok? && a'.accepted == a.accepted + [Normalized(r.raw, m, s).value]
         && a'.quarantine == a.quarantine && a'.duplicates == a.duplicates
       case Duplicate =>
         a'.accepted == a.accepted && a'.quarantine == a.quarantine && a'.duplicates == a.duplicates + 1
       case Refused(code) =>
         && a'.accepted == a.accepted && a'.duplicates == a.duplicates
         && a'.quarantine == a.quarantine + [Rejected(r.origin, r.row, r.raw, code)]
  }

  /** After any records, the next one meets the fate it is to have, and the tallies say so. */
  lemma FateOfRecord(front: seq<Record>, r: Record, m: Manifest, s: Setting)
    ensures exists fate :: FateIs(front, r, m, s, fate)
                           && Tallied(TakeAll(front, m, s), TakeAll(front + [r], m, s), r, m, s, fate)
    ensures forall x, y :: FateIs(front, r, m, s, x) && FateIs(front, r, m, s, y) ==> x == y
  {
    hide Normalized, EventKey, Consistent;
    var a, records := TakeAll(front, m, s), front + [r];
    assert records[..|records| - 1] == front && records[|records| - 1] == r;
    AllConsistent(front, m, s);
    match Normalized(r.raw, m, s) {
      case Err(code) => assert FateIs(front, r, m, s, Refused(code));
      case Ok(e) =>
        var id := s.name(e.payload.identity);
        StoredIsFirst(front, m, s, id);
        if id in a.byId {
          var i :| FirstOf(front, m, s, id, i);
          var fate := if a.byId[id].payload == e.payload then Duplicate else Refused(CBN021_EVENT_PAYLOAD_CONFLICT);
          assert FateIs(front, r, m, s, fate);
        } else {
          OrderKeyIsNew(a, e, s);
          assert FateIs(front, r, m, s, Accepted);
        }
    }
  }

  /** The object's interval is well formed and advances. */
  predicate Advances(start: string, end: string) { 0 <= Place(start) < Place(end) }

  /** The file that landed is the one the object describes. */
  predicate Landed(o: Object, files: map<string, File>)
  {
    o.path in files && files[o.path].length == o.byteLength && files[o.path].sha == o.sha
  }

  /** Where the chain stands before object `i`. */
  function Prior(objects: seq<Object>, start: string, i: nat): string
    requires i <= |objects|
  {
    if i == 0 then start else objects[i - 1].end
  }

  /** The object is new, begins where the one before ends, advances and has landed. */
  ghost predicate Links(objects: seq<Object>, files: map<string, File>, start: string, i: int)
    requires 0 <= i < |objects|
  {
    var o := objects[i];
    && (forall j :: 0 <= j < i ==> objects[j].id != o.id)
    && o.start == Prior(objects, start, i) && Advances(o.start, o.end) && Landed(o, files)
  }

  /** The objects form a chain from `start`. */
  ghost predicate Chained(objects: seq<Object>, files: map<string, File>, start: string)
  {
    forall i :: 0 <= i < |objects| ==> Links(objects, files, start, i)
  }

  /** Why an object breaks the chain. */
  ghost predicate ObjectCause(objects: seq<Object>, files: map<string, File>, start: string, i: int, code: Code)
    requires 0 <= i < |objects|
  {
    var o := objects[i];
    var isNew := forall j :: 0 <= j < i ==> objects[j].id != o.id;
    var joined := isNew && o.start == Prior(objects, start, i);
    var placed := joined && Advances(o.start, o.end);
    match code
    case CBN009_OBJECT_ID_CONFLICT => exists j :: 0 <= j < i && objects[j].id == o.id && objects[j].sha != o.sha
    case CBN008_OBJECT_SEQUENCE => exists j :: 0 <= j < i && objects[j].id == o.id && objects[j].sha == o.sha
    case CBN014_POSITION_MALFORMED => joined && (Place(o.start) < 0 || Place(o.end) < 0)
    case CBN022_INTERVAL_GAP_OR_OVERLAP => isNew && (!joined || (Place(o.start) >= Place(o.end) >= 0))
    case CBN004_OBJECT_MISSING => placed && o.path !in files
    case CBN006_OBJECT_SIZE => placed && o.path in files && files[o.path].length != o.byteLength
    case CBN005_OBJECT_CHECKSUM =>
      placed && o.path in files && files[o.path].length == o.byteLength && files[o.path].sha != o.sha
    case _ => false
  }

  /** The first object that breaks the chain does so for this reason. */
  ghost predicate ChainCause(objects: seq<Object>, files: map<string, File>, start: string, code: Code)
  {
    exists i :: 0 <= i < |objects| && ObjectCause(objects, files, start, i, code)
                && forall j :: 0 <= j < i ==> Links(objects, files, start, j)
  }

  /** The ids and digests seen so far. */
  ghost predicate SeenAre(objects: seq<Object>, k: nat, seen: map<string, string>)
    requires k <= |objects|
  {
    && (forall id :: id in seen <==> exists j :: 0 <= j < k && objects[j].id == id)
    && (forall j :: 0 <= j < k ==> objects[j].id in seen && seen[objects[j].id] == objects[j].sha)
  }

  lemma ObjectMeans(objects: seq<Object>, files: map<string, File>, start: string, k: nat, seen: map<string, string>)
    requires k < |objects| && SeenAre(objects, k, seen)
    ensures var o := objects[k];
      var one := ChainEnd([o], files, seen, Prior(objects, start, k));
      && (one.Ok? <==> Links(objects, files, start, k)) && (one.Ok? ==> one.value == o.end)
      && (one.Err? ==> ObjectCause(objects, files, start, k, one.code))
  {
    hide PositionKey, Compare, Place;
    var o := objects[k];
    PlaceMeans(o.start);
    PlaceMeans(o.end);
    if Place(o.start) >= 0 && Place(o.end) >= 0 { PlacesCompare(o.start, o.end); }
    assert [o][1..] == [];
    SeenBefore(objects, k, seen);
  }

  lemma SeenBefore(objects: seq<Object>, k: nat, seen: map<string, string>)
    requires k < |objects| && SeenAre(objects, k, seen)
    ensures objects[k].id in seen <==> exists j :: 0 <= j < k && objects[j].id == objects[k].id
    ensures objects[k].id in seen ==>
      exists j :: 0 <= j < k && objects[j].id == objects[k].id && objects[j].sha == seen[objects[k].id]
  {
    if objects[k].id in seen {
      var j :| 0 <= j < k && objects[j].id == objects[k].id;
    }
  }

  lemma SeenMore(objects: seq<Object>, k: nat, seen: map<string, string>)
    requires k < |objects| && SeenAre(objects, k, seen) && objects[k].id !in seen
    ensures SeenAre(objects, k + 1, seen[objects[k].id := objects[k].sha])
  {
  }

  lemma ChainSplits(objects: seq<Object>, files: map<string, File>, seen: map<string, string>, prior: string)
    requires objects != []
    ensures var one := ChainEnd([objects[0]], files, seen, prior);
      ChainEnd(objects, files, seen, prior) ==
        if one.Err? then one
        else ChainEnd(objects[1..], files, seen[objects[0].id := objects[0].sha], objects[0].end)
    ensures ChainEnd([objects[0]], files, seen, prior).Ok? ==> objects[0].id !in seen
  {
    hide PositionKey, Compare;
    assert [objects[0]][1..] == [];
  }

  lemma {:induction false} ChainMeans(objects: seq<Object>, files: map<string, File>, start: string, k: nat,
                                      seen: map<string, string>)
    requires k <= |objects| && SeenAre(objects, k, seen) && forall j :: 0 <= j < k ==> Links(objects, files, start, j)
    ensures var r := ChainEnd(objects[k..], files, seen, Prior(objects, start, k));
      && (r.Ok? <==> Chained(objects, files, start))
      && (r.Ok? ==> r.value == Prior(objects, start, |objects|))
      && (r.Err? ==> ChainCause(objects, files, start, r.code))
    decreases |objects| - k
  {
    hide ChainEnd, Links, ObjectCause, SeenAre;
    if k < |objects| {
      assert objects[k..][0] == objects[k] && objects[k..][1..] == objects[k + 1..];
      ChainSplits(objects[k..], files, seen, Prior(objects, start, k));
      ObjectMeans(objects, files, start, k, seen);
      if Links(objects, files, start, k) {
        SeenMore(objects, k, seen);
        ChainMeans(objects, files, start, k + 1, seen[objects[k].id := objects[k].sha]);
      }
    } else {
      assert objects[k..] == [];
      ChainOfNone(files, seen, Prior(objects, start, k));
    }
  }

  lemma ChainOfNone(files: map<string, File>, seen: map<string, string>, prior: string)
    ensures ChainEnd([], files, seen, prior) == Ok(prior)
  {
  }

  /** Of the one version and profile. */
  predicate Versioned(m: Manifest)
  {
    && m.version == "raw-landing-manifest/1.0.0"
    && m.profileId == "changebridge.synthetic-dms-s3.full-images" && m.profileVersion == "1.0.0"
  }

  /** The manifest opens at the snapshot's frontier, advances and numbers its objects from one. */
  ghost predicate Opens(m: Manifest)
  {
    && Versioned(m) && m.start == m.snapshotFrontier && Advances(m.start, m.end)
    && forall i :: 0 <= i < |m.objects| ==> m.objects[i].sequence == i + 1
  }

  /** The declared paths are the objects' paths, in whatever order. */
  ghost predicate Declares(m: Manifest)
  {
    multiset(m.declared) == multiset(seq(|m.objects|, i requires 0 <= i < |m.objects| => m.objects[i].path))
  }

  /** The manifests that are taken. */
  ghost predicate Acceptable(m: Manifest, files: map<string, File>)
  {
    && Opens(m) && Chained(m.objects, files, m.start)
    && m.objects != [] && m.objects[|m.objects| - 1].end == m.end && Declares(m)
  }

  /** Why a manifest is not taken. */
  ghost predicate ManifestCause(m: Manifest, files: map<string, File>, code: Code)
  {
    var starts := Versioned(m) && m.start == m.snapshotFrontier;
    var numbered := forall i :: 0 <= i < |m.objects| ==> m.objects[i].sequence == i + 1;
    var chained := Opens(m) && Chained(m.objects, files, m.start);
    var joined := chained && Prior(m.objects, m.start, |m.objects|) == m.end;
    match code
    case CBN023_SCALAR_LOSS => m.version != "raw-landing-manifest/1.0.0"
    case CBN001_UNKNOWN_PROFILE => m.version == "raw-landing-manifest/1.0.0" && !Versioned(m)
    case CONTRACT_ERROR => starts && (Place(m.start) < 0 || Place(m.end) < 0)
    case CBN022_INTERVAL_GAP_OR_OVERLAP =>
      || (Versioned(m) && !starts) || (starts && Place(m.start) >= Place(m.end) >= 0) || (chained && !joined)
      || (Opens(m) && ChainCause(m.objects, files, m.start, code))
    case CBN008_OBJECT_SEQUENCE =>
      || (starts && Advances(m.start, m.end) && !numbered) || (joined && !Declares(m))
      || (Opens(m) && ChainCause(m.objects, files, m.start, code))
    case _ => Opens(m) && ChainCause(m.objects, files, m.start, code)
  }

  lemma PathsMean(m: Manifest)
    ensures SortBy(Paths(m.objects), Chars) == SortBy(m.declared, Chars) <==> Declares(m)
  {
    hide SortBy, Chars, Sorted;
    SortFacts(Paths(m.objects), Chars);
    SortFacts(m.declared, Chars);
    assert Paths(m.objects) == seq(|m.objects|, i requires 0 <= i < |m.objects| => m.objects[i].path);
    if Declares(m) {
      forall x, y | x in Paths(m.objects) && y in Paths(m.objects) && Chars(x) == Chars(y) ensures x == y {
        CharsInjective(x, y);
      }
      SortForgetsOrder(Paths(m.objects), m.declared, Chars);
    }
  }

  lemma CausesOfChain(objects: seq<Object>, files: map<string, File>, start: string)
    ensures forall code :: ChainCause(objects, files, start, code) ==>
      !code.CBN023_SCALAR_LOSS? && !code.CBN001_UNKNOWN_PROFILE? && !code.CONTRACT_ERROR?
  {
    hide Links, Place;
  }

  /** A manifest is taken exactly if it is acceptable; else its code names what is wrong. */
  lemma ManifestAnswer(m: Manifest, files: map<string, File>)
    ensures var fault := ManifestFault(m, files);
      && (fault == None <==> Acceptable(m, files))
      && (fault.Some? ==> ManifestCause(m, files, fault.value))
  {
    hide PositionKey, Compare, Place, ChainEnd, Chained, ChainCause, Declares, SortBy, Paths;
    PlaceMeans(m.start);
    PlaceMeans(m.end);
    if Place(m.start) >= 0 && Place(m.end) >= 0 { PlacesCompare(m.start, m.end); }
    assert m.objects[0..] == m.objects;
    NoneSeen(m.objects);
    ChainMeans(m.objects, files, m.start, 0, map[]);
    CausesOfChain(m.objects, files, m.start);
    PathsMean(m);
  }

  lemma NoneSeen(objects: seq<Object>)
    ensures SeenAre(objects, 0, map[])
  {
  }

  /** The file can be read and has as many rows as the object says. */
  predicate Readable(o: Object, files: map<string, File>)
  {
    o.path in files && files[o.path].records.Ok? && |files[o.path].records.value| == o.rowCount
  }

  /** The record is row `row` of an object's file. */
  ghost predicate IsRow(objects: seq<Object>, files: map<string, File>, r: Record, i: int, row: int)
  {
    && 0 <= i < |objects| && Readable(objects[i], files) && 0 <= row < objects[i].rowCount
    && r == Record(objects[i].id, row + 1, files[objects[i].path].records.value[row])
  }

  /** The records are the rows of the first `n` objects, an earlier object's first, in the order of the rows. */
  ghost predicate AreRows(objects: seq<Object>, files: map<string, File>, n: int, records: seq<Record>)
  {
    && (forall r :: r in records <==> exists i, row :: i < n && IsRow(objects, files, r, i, row))
    && (forall a, b :: 0 <= a < b < |records| ==> InOrder(objects, files, n, records[a], records[b]))
  }

  /** The one record is a row before the other. */
  ghost predicate InOrder(objects: seq<Object>, files: map<string, File>, n: int, x: Record, y: Record)
  {
    exists i, row, j, next :: i <= j < n && IsRow(objects, files, x, i, row) && IsRow(objects, files, y, j, next)
                              && (i == j ==> row < next)
  }

  /** Reading fails at the first file that cannot be read or has another number of rows. */
  ghost predicate ReadCause(objects: seq<Object>, files: map<string, File>, code: Code)
  {
    exists i :: 0 <= i < |objects| && (forall j :: 0 <= j < i ==> Readable(objects[j], files))
                && objects[i].path in files
                && match files[objects[i].path].records
                   case Err(c) => code == c
                   case Ok(raws) => |raws| != objects[i].rowCount && code == CBN007_ROW_COUNT
  }

  ghost predicate AllReadable(objects: seq<Object>, files: map<string, File>, n: nat)
    requires n <= |objects|
  {
    forall i :: 0 <= i < n ==> Readable(objects[i], files)
  }

  lemma {:induction false} ReadMeans(objects: seq<Object>, files: map<string, File>, n: nat)
    requires n <= |objects| && forall o :: o in objects ==> o.path in files
    ensures var r := ReadAll(objects, files, n);
      && (r.Ok? <==> AllReadable(objects, files, n))
      && (r.Ok? ==> AreRows(objects, files, n, r.value))
      && (r.Err? ==> ReadCause(objects, files, r.code))
  {
    hide AreRows, ReadCause;
    if n > 0 {
      ReadMeans(objects, files, n - 1);
      var r := ReadAll(objects, files, n - 1);
      if r.Ok? {
        assert objects[n - 1] in objects;
        if Readable(objects[n - 1], files) {
          RowsMore(objects, files, n - 1, r.value);
        } else {
          FirstUnread(objects, files, n - 1);
        }
      }
    } else {
      NoRows(objects, files);
    }
  }

  lemma NoRows(objects: seq<Object>, files: map<string, File>)
    ensures AreRows(objects, files, 0, [])
  {
  }

  lemma FirstUnread(objects: seq<Object>, files: map<string, File>, n: nat)
    requires n < |objects| && AllReadable(objects, files, n) && objects[n].path in files && !Readable(objects[n], files)
    ensures var found := files[objects[n].path].records;
      ReadCause(objects, files, if found.Err? then found.code else CBN007_ROW_COUNT)
  {
  }

  lemma RowsMore(objects: seq<Object>, files: map<string, File>, n: nat, records: seq<Record>)
    requires n < |objects| && AreRows(objects, files, n, records) && Readable(objects[n], files)
    ensures AreRows(objects, files, n + 1, records + Placed(objects[n], files[objects[n].path].records.value))
  {
    hide IsRow, InOrder;
    var placed := Placed(objects[n], files[objects[n].path].records.value);
    var more := records + placed;
    PlacedRows(objects, files, n);
    forall r ensures r in more <==> r in records || r in placed {}
    forall r | exists i, row :: i < n + 1 && IsRow(objects, files, r, i, row) ensures r in more {
      var i, row :| i < n + 1 && IsRow(objects, files, r, i, row);
      assert i < n || i == n;
    }
    forall a, b | 0 <= a < b < |more| ensures InOrder(objects, files, n + 1, more[a], more[b]) {
      assert a < |records| ==> records[a] in records;
      RowsInOrder(objects, files, n, records, a, b);
    }
  }

  lemma PlacedRows(objects: seq<Object>, files: map<string, File>, n: nat)
    requires n < |objects| && Readable(objects[n], files)
    ensures var placed := Placed(objects[n], files[objects[n].path].records.value);
      && (forall k :: 0 <= k < |placed| ==> IsRow(objects, files, placed[k], n, k))
      && (forall r, row :: IsRow(objects, files, r, n, row) ==> r in placed)
  {
    var placed := Placed(objects[n], files[objects[n].path].records.value);
    forall r, row | IsRow(objects, files, r, n, row) ensures r in placed { assert placed[row] == r; }
  }

  lemma RowsInOrder(objects: seq<Object>, files: map<string, File>, n: nat, records: seq<Record>, a: int, b: int)
    requires n < |objects| && AreRows(objects, files, n, records) && Readable(objects[n], files)
    requires 0 <= a < b < |records| + |files[objects[n].path].records.value|
    ensures var more := records + Placed(objects[n], files[objects[n].path].records.value);
      InOrder(objects, files, n + 1, more[a], more[b])
  {
    hide IsRow;
    var k := |records|;
    var placed := Placed(objects[n], files[objects[n].path].records.value);
    PlacedRows(objects, files, n);
    if b < k {
      assert InOrder(objects, files, n, records[a], records[b]);
    } else if a < k {
      assert records[a] in records;
      var i, row :| i < n && IsRow(objects, files, records[a], i, row);
      assert IsRow(objects, files, placed[b - k], n, b - k);
    } else {
      assert IsRow(objects, files, placed[a - k], n, a - k) && IsRow(objects, files, placed[b - k], n, b - k);
    }
  }

  /** By position, then transaction number, then event number. */
  predicate NotAfter(x: Identity, y: Identity)
  {
    var p, q := Place(x.lsn), Place(y.lsn);
    p < q || (p == q && (x.txSequence < y.txSequence || (x.txSequence == y.txSequence && x.sequence <= y.sequence)))
  }

  /** The bundle holds the tallies of all rows, its events in order. */
  ghost predicate Bundles(b: Bundle, m: Manifest, s: Setting, records: seq<Record>)
  {
    var a := TakeAll(records, m, s);
    && multiset(b.canonical) == multiset(a.accepted) && b.quarantine == a.quarantine && b.duplicates == a.duplicates
    && b.raw == |records| && (b.passed <==> b.quarantine == [])
    && (forall i, j :: 0 <= i < j < |b.canonical| ==>
          NotAfter(b.canonical[i].payload.identity, b.canonical[j].payload.identity))
  }

  /**
  A manifest is normalized exactly if it is acceptable and all its files can be read; the
  bundle then holds the tallies of all rows, in the order of objects and rows; else the
  code says what is wrong with the manifest or with its first unreadable file.
  */
  lemma BundleAnswer(m: Manifest, s: Setting)
    ensures var r := Bundled(m, s);
      && (r.Ok? <==> Acceptable(m, s.files) && AllReadable(m.objects, s.files, |m.objects|))
      && (r.Ok? ==>
              exists records :: AreRows(m.objects, s.files, |m.objects|, records) && Bundles(r.value, m, s, records))
      && (r.Err? ==> if Acceptable(m, s.files) then ReadCause(m.objects, s.files, r.code)
                     else ManifestCause(m, s.files, r.code))
  {
    hide ManifestFault, Acceptable, ReadAll, ReadCause, ManifestCause, AreRows, Take, TakeAll, EventKey, AllReadable;
    hide Bundles;
    ManifestAnswer(m, s.files);
    if ManifestFault(m, s.files) == None {
      FilesThere(m, s.files);
      ReadMeans(m.objects, s.files, |m.objects|);
      if ReadAll(m.objects, s.files, |m.objects|).Ok? {
        BundleIsSorted(m, s, ReadAll(m.objects, s.files, |m.objects|).value);
      }
    }
  }

  lemma BundleIsSorted(m: Manifest, s: Setting, records: seq<Record>)
    requires Acceptable(m, s.files)
    ensures var a := TakeAll(records, m, s);
      Bundles(Bundle(SortBy(a.accepted, e => EventKey(e, s.name)), a.quarantine, a.raw, a.duplicates,
                     a.quarantine == []),
              m, s, records)
  {
    hide TakeAll, Consistent, EventKey, NotAfter, Acceptable, SortBy, InPlace;
    var a := TakeAll(records, m, s);
    SortFacts(a.accepted, e => EventKey(e, s.name));
    var sorted := SortBy(a.accepted, e => EventKey(e, s.name));
    AllConsistent(records, m, s);
    BoundsPlaced(m, s);
    AcceptedPlaced(records, m, s);
    forall i, j | 0 <= i < j < |sorted| ensures NotAfter(sorted[i].payload.identity, sorted[j].payload.identity) {
      assert sorted[i] in sorted && sorted[j] in sorted;
      KeyOrders(sorted[i], sorted[j], s.name);
    }
  }

  lemma BoundsPlaced(m: Manifest, s: Setting)
    requires Acceptable(m, s.files)
    ensures Place(m.snapshotFrontier) >= 0 && Place(m.end) >= 0
  {
    hide Place, Chained, Declares;
  }

  lemma {:induction false} AcceptedPlaced(records: seq<Record>, m: Manifest, s: Setting)
    requires Place(m.snapshotFrontier) >= 0 && Place(m.end) >= 0
    ensures forall e :: e in TakeAll(records, m, s).accepted ==> Place(e.payload.identity.lsn) >= 0
  {
    hide Place, EventKey;
    if records != [] {
      var front, last := records[..|records| - 1], records[|records| - 1];
      AcceptedPlaced(front, m, s);
      if Normalized(last.raw, m, s).Ok? {
        RecordAnswer(last.raw, m, s);
        RecordCopied(last.raw, m, s);
      }
    }
  }

  lemma KeyOrders(x: Envelope, y: Envelope, name: Identity -> string)
    requires Le(EventKey(x, name), EventKey(y, name))
    requires Place(x.payload.identity.lsn) >= 0 && Place(y.payload.identity.lsn) >= 0
    ensures NotAfter(x.payload.identity, y.payload.identity)
  {
    hide Words;
    var a, b := EventKey(x, name), EventKey(y, name);
    assert a[0] == High(x.payload.identity.lsn) && a[1] == Low(x.payload.identity.lsn);
    assert b[0] == High(y.payload.identity.lsn) && b[1] == Low(y.payload.identity.lsn);
    assert a[2] == x.payload.identity.txSequence && a[3] == x.payload.identity.sequence;
    assert b[2] == y.payload.identity.txSequence && b[3] == y.payload.identity.sequence;
    ParseBound(x.payload.identity.lsn);
    ParseBound(y.payload.identity.lsn);
    LeOfFour(a, b);
  }

  lemma LeOfFour(a: Key, b: Key)
    requires |a| >= 4 && |b| >= 4 && Le(a, b)
    ensures a[0] < b[0] || (a[0] == b[0] && (a[1] < b[1] || (a[1] == b[1] &&
            (a[2] < b[2] || (a[2] == b[2] && a[3] <= b[3])))))
  {
    assert a[1..][0] == a[1] && a[1..][1..] == a[2..] && a[2..][0] == a[2] && a[2..][1..] == a[3..];
    assert b[1..][0] == b[1] && b[1..][1..] == b[2..] && b[2..][0] == b[2] && b[2..][1..] == b[3..];
    assert a[3..][0] == a[3] && b[3..][0] == b[3];
    assert Le(a[2..], b[2..]) <==> a[2] < b[2] || (a[2] == b[2] && Le(a[3..], b[3..]));
    assert Le(a[1..], b[1..]) <==> a[1] < b[1] || (a[1] == b[1] && Le(a[2..], b[2..]));
  }
}
