/**
The normalization boundary (normalizer.py): a manifest's chain of objects is validated,
then every raw record is accepted, counted as a duplicate, or quarantined.  `name` is the
text of an event identity's digest; a payload digest is the payload itself.
*/
module Normalizer {
  import opened Common
  import opened Sorting
  import opened Events
  import opened Lsn

  const PROFILE_ID := "changebridge.synthetic-dms-s3.full-images"
  const PROFILE_VERSION := "1.0.0"
  const MANIFEST_VERSION := "raw-landing-manifest/1.0.0"

  datatype Code =
    | CBN001_UNKNOWN_PROFILE | CBN002_UNKNOWN_FIELD | CBN004_OBJECT_MISSING | CBN005_OBJECT_CHECKSUM
    | CBN006_OBJECT_SIZE
    | CBN007_ROW_COUNT | CBN008_OBJECT_SEQUENCE | CBN009_OBJECT_ID_CONFLICT | CBN010_GENERATION_MISMATCH
    | CBN011_RUN_MISMATCH | CBN012_CONTRACT_MISMATCH | CBN013_SCHEMA_MISMATCH | CBN014_POSITION_MALFORMED
    | CBN015_POSITION_BOUNDARY | CBN016_TRANSACTION_METADATA | CBN017_UNSUPPORTED_OPERATION | CBN018_PRIMARY_KEY
    | CBN019_IMAGE_COMBINATION | CBN020_ORDER_KEY_CONFLICT | CBN021_EVENT_PAYLOAD_CONFLICT
    | CBN022_INTERVAL_GAP_OR_OVERLAP | CBN023_SCALAR_LOSS | CBN029_INVALID_TIMESTAMP | CONTRACT_ERROR

  datatype Result<+T> = Ok(value: T) | Err(code: Code)

  /** A raw record: its unknown and missing fields, and the values of the known ones. */
  datatype Raw = Raw(unknown: set<string>, missing: set<string>, profileId: string, profileVersion: string,
                     kind: string,
                     operation: string, source: string, contractId: string, contractVersion: string,
                     contractDigest: string, schemaVersion: string, schemaDigest: string,
                     primaryKey: Option<seq<string>>,
                     before: Option<Row>, after: Option<Row>, tx: Option<string>, txSequence: Option<int>,
                     sequence: Option<int>, lsn: string, committedAt: string, ingestedAt: string, run: string,
                     gen: string)

  datatype Identity = Identity(source: string, lsn: string, tx: string, txSequence: int, sequence: int,
                               primaryKey: seq<string>, operation: string)

  /** Everything but the ingestion time. */
  datatype Payload = Payload(identity: Identity, contractId: string, contractVersion: string, contractDigest: string,
                             schemaVersion: string, before: Option<Row>, after: Option<Row>, committedAt: string,
                             run: string, gen: string)

  datatype Envelope = Envelope(payload: Payload, ingestedAt: string)

  datatype Object = Object(sequence: int, id: string, sha: string, start: string, end: string, path: string,
                           byteLength: nat, rowCount: nat)

  /** A landed file, already decoded: its records, or the error of reading them. */
  datatype File = File(sha: string, length: nat, records: Result<seq<Raw>>)

  datatype Manifest = Manifest(version: string, profileId: string, profileVersion: string, snapshotFrontier: string,
                               start: string, end: string, objects: seq<Object>, declared: seq<string>, run: string,
                               gen: string)

  /** What a run is given beside the manifest. */
  datatype Setting = Setting(files: map<string, File>, contracts: map<(string, string), string>,
                             fits: (string, string, Row) -> bool, envelope: Envelope -> bool, name: Identity -> string)

  predicate Malformed(a: string, b: string) { PositionKey(a) == None || PositionKey(b) == None }

  /** The chain of objects: each new, intact, and beginning where the one before ends. */
  function ChainEnd(objects: seq<Object>, files: map<string, File>, seen: map<string, string>,
                    prior: string): Result<string>
    decreases |objects|
  {
    if objects == [] then Ok(prior)
    else
      var o := objects[0];
      if o.id in seen then Err(if seen[o.id] != o.sha then CBN009_OBJECT_ID_CONFLICT else CBN008_OBJECT_SEQUENCE)
      else if o.start != prior then Err(CBN022_INTERVAL_GAP_OR_OVERLAP)
      else if Malformed(o.start, o.end) then Err(CBN014_POSITION_MALFORMED)
      else if Compare(o.start, o.end) >= 0 then Err(CBN022_INTERVAL_GAP_OR_OVERLAP)
      else if o.path !in files then Err(CBN004_OBJECT_MISSING)
      else if files[o.path].length != o.byteLength then Err(CBN006_OBJECT_SIZE)
      else if files[o.path].sha != o.sha then Err(CBN005_OBJECT_CHECKSUM)
      else ChainEnd(objects[1..], files, seen[o.id := o.sha], o.end)
  }

  predicate Numbered(objects: seq<Object>) { forall i :: 0 <= i < |objects| ==> objects[i].sequence == i + 1 }

  function Paths(objects: seq<Object>): seq<string> { seq(|objects|, i requires 0 <= i < |objects| => objects[i].path) }

  /** `validate_manifest`. */
  function ManifestFault(m: Manifest, files: map<string, File>): Option<Code>
  {
    if m.version != MANIFEST_VERSION then Some(CBN023_SCALAR_LOSS)
    else if m.profileId != PROFILE_ID || m.profileVersion != PROFILE_VERSION then Some(CBN001_UNKNOWN_PROFILE)
    else if m.start != m.snapshotFrontier then Some(CBN022_INTERVAL_GAP_OR_OVERLAP)
    else if Malformed(m.start, m.end) then Some(CONTRACT_ERROR)
    else if Compare(m.start, m.end) >= 0 then Some(CBN022_INTERVAL_GAP_OR_OVERLAP)
    else if !Numbered(m.objects) then Some(CBN008_OBJECT_SEQUENCE)
    else match ChainEnd(m.objects, files, map[], m.start)
      case Err(code) => Some(code)
      case Ok(end) =>
        if end != m.end then Some(CBN022_INTERVAL_GAP_OR_OVERLAP)
        else if SortBy(Paths(m.objects), Chars) != SortBy(m.declared, Chars) then Some(CBN008_OBJECT_SEQUENCE)
        else None
  }

  method ValidateManifest(m: Manifest, files: map<string, File>) returns (fault: Option<Code>)
    ensures fault == ManifestFault(m, files)
  {
    hide PositionKey, Compare, SortBy;
    if m.version != MANIFEST_VERSION {
      return Some(CBN023_SCALAR_LOSS);
    }
    if m.profileId != PROFILE_ID || m.profileVersion != PROFILE_VERSION {
      return Some(CBN001_UNKNOWN_PROFILE);
    }
    if m.start != m.snapshotFrontier {
      return Some(CBN022_INTERVAL_GAP_OR_OVERLAP);
    }
    if Malformed(m.start, m.end) {
      return Some(CONTRACT_ERROR);
    }
    if Compare(m.start, m.end) >= 0 {
      return Some(CBN022_INTERVAL_GAP_OR_OVERLAP);
    }
    if !Numbered(m.objects) {
      return Some(CBN008_OBJECT_SEQUENCE);
    }
    var seen: map<string, string>, prior := map[], m.start;
    var i := 0;
    while i < |m.objects|
      invariant 0 <= i <= |m.objects|
      invariant ChainEnd(m.objects, files, map[], m.start) == ChainEnd(m.objects[i..], files, seen, prior)
    {
      var o := m.objects[i];
      assert m.objects[i..][0] == o && m.objects[i..][1..] == m.objects[i + 1..];
      if o.id in seen {
        return Some(if seen[o.id] != o.sha then CBN009_OBJECT_ID_CONFLICT else CBN008_OBJECT_SEQUENCE);
      }
      if o.start != prior {
        return Some(CBN022_INTERVAL_GAP_OR_OVERLAP);
      }
      if Malformed(o.start, o.end) {
        return Some(CBN014_POSITION_MALFORMED);
      }
      if Compare(o.start, o.end) >= 0 {
        return Some(CBN022_INTERVAL_GAP_OR_OVERLAP);
      }
      if o.path !in files {
        return Some(CBN004_OBJECT_MISSING);
      }
      if files[o.path].length != o.byteLength {
        return Some(CBN006_OBJECT_SIZE);
      }
      if files[o.path].sha != o.sha {
        return Some(CBN005_OBJECT_CHECKSUM);
      }
      seen, prior := seen[o.id := o.sha], o.end;
      i := i + 1;
    }
    if prior != m.end {
      return Some(CBN022_INTERVAL_GAP_OR_OVERLAP);
    }
    if SortBy(Paths(m.objects), Chars) != SortBy(m.declared, Chars) {
      return Some(CBN008_OBJECT_SEQUENCE);
    }
    fault := None;
  }

  predicate StartsWith(s: string, prefix: string) { prefix <= s }

  predicate UtcText(s: string) { s != "" && s[|s| - 1] == 'Z' && 'T' in s }

  /** The image rules: each operation carries exactly its images. */
  predicate ImagesFit(operation: string, before: Option<Row>, after: Option<Row>)
  {
    && (operation in {"snapshot", "insert"} ==> before == None && after.Some?)
    && (operation == "update" ==> before.Some? && after.Some?)
    && (operation == "delete" ==> before.Some? && after == None)
  }

  function RecordFault(r: Raw, m: Manifest, s: Setting): Option<Code>
  {
    var contract := (r.contractId, r.contractVersion);
    var snapshot := r.operation == "snapshot";
    if r.unknown != {} then Some(CBN002_UNKNOWN_FIELD)
    else if r.missing != {} then Some(CBN016_TRANSACTION_METADATA)
    else if r.profileId != PROFILE_ID || r.profileVersion != PROFILE_VERSION then Some(CBN001_UNKNOWN_PROFILE)
    else if r.gen != m.gen then Some(CBN010_GENERATION_MISMATCH)
    else if r.run != m.run then Some(CBN011_RUN_MISMATCH)
    else if contract !in s.contracts || r.contractDigest != s.contracts[contract] then Some(CBN012_CONTRACT_MISMATCH)
    else if r.schemaDigest != s.contracts[contract] then Some(CBN013_SCHEMA_MISMATCH)
    else if r.operation !in {"snapshot", "insert", "update", "delete"} then Some(CBN017_UNSUPPORTED_OPERATION)
    else if r.primaryKey == None || r.primaryKey.value == [] then Some(CBN018_PRIMARY_KEY)
    else if !ImagesFit(r.operation, r.before, r.after) then Some(CBN019_IMAGE_COMBINATION)
    else if r.after.Some? && !s.fits(r.contractId, r.contractVersion, r.after.value) then Some(CBN013_SCHEMA_MISMATCH)
    else if r.before.Some? && !s.fits(r.contractId, r.contractVersion, r.before.value) then Some(CBN013_SCHEMA_MISMATCH)
    else if r.kind !in {"snapshot", "cdc"} || (r.kind == "snapshot") != snapshot then Some(CBN017_UNSUPPORTED_OPERATION)
    else if r.tx == None || r.tx.value == "" then Some(CBN016_TRANSACTION_METADATA)
    else if snapshot != StartsWith(r.tx.value, "snapshot-batch:") then Some(CBN016_TRANSACTION_METADATA)
    else if r.txSequence == None || r.sequence == None then Some(CBN016_TRANSACTION_METADATA)
    else if Malformed(r.lsn, m.snapshotFrontier) || Malformed(r.lsn, m.end) then Some(CBN014_POSITION_MALFORMED)
    else if snapshot && Compare(r.lsn, m.snapshotFrontier) != 0 then Some(CBN015_POSITION_BOUNDARY)
    else if !snapshot && (Compare(r.lsn, m.snapshotFrontier) <= 0 || Compare(r.lsn, m.end) > 0)
    then Some(CBN015_POSITION_BOUNDARY)
    else if !UtcText(r.committedAt) || !UtcText(r.ingestedAt) then Some(CBN029_INVALID_TIMESTAMP)
    else None
  }

  function EventOf(r: Raw): Envelope
    requires r.primaryKey.Some? && r.tx.Some? && r.txSequence.Some? && r.sequence.Some?
  {
    var identity :=
      Identity(r.source, r.lsn, r.tx.value, r.txSequence.value, r.sequence.value, r.primaryKey.value, r.operation);
    Envelope(Payload(identity, r.contractId, r.contractVersion, r.contractDigest, r.schemaVersion, r.before, r.after,
                  r.committedAt, r.run, r.gen), r.ingestedAt)
  }

  /** `normalize_record`. */
  function Normalized(r: Raw, m: Manifest, s: Setting): Result<Envelope>
  {
    match RecordFault(r, m, s)
    case Some(code) => Err(code)
    case None => if !s.envelope(EventOf(r)) then Err(CBN023_SCALAR_LOSS) else Ok(EventOf(r))
  }

  function High(lsn: string): int { match PositionKey(lsn) case None => 0 case Some((high, _)) => high }

  function Low(lsn: string): int { match PositionKey(lsn) case None => 0 case Some((_, low)) => low }

  /** `event_order_key`; the kind is always the same. */
  function OrderKey(identity: Identity, name: Identity -> string): Key
  {
    [High(identity.lsn), Low(identity.lsn), identity.txSequence, identity.sequence] + Chars(name(identity))
  }

  function EventKey(e: Envelope, name: Identity -> string): Key { OrderKey(e.payload.identity, name) }

  datatype Rejected = Rejected(origin: string, row: nat, raw: Raw, code: Code)

  /** The loop's variables; `accepted` lists the values of `byId` in insertion order. */
  datatype Acc = Acc(accepted: seq<Envelope>, byId: map<string, Envelope>, orders: map<Key, Payload>,
                     quarantine: seq<Rejected>, duplicates: nat, raw: nat)

  const START := Acc([], map[], map[], [], 0, 0)

  /** A record with its place. */
  datatype Record = Record(origin: string, row: nat, raw: Raw)

  function Quarantined(a: Acc, r: Record, code: Code): Acc
  {
    a.(quarantine := a.quarantine + [Rejected(r.origin, r.row, r.raw, code)], raw := a.raw + 1)
  }

  function Take(a: Acc, r: Record, m: Manifest, s: Setting): Acc
  {
    match Normalized(r.raw, m, s)
    case Err(code) => Quarantined(a, r, code)
    case Ok(e) =>
      var id, key := s.name(e.payload.identity), EventKey(e, s.name);
      if id in a.byId then
        if a.byId[id].payload == e.payload then a.(duplicates := a.duplicates + 1, raw := a.raw + 1)
        else Quarantined(a, r, CBN021_EVENT_PAYLOAD_CONFLICT)
      else if key in a.orders && a.orders[key] != e.payload then Quarantined(a, r, CBN020_ORDER_KEY_CONFLICT)
      else
        a.(accepted := a.accepted + [e], byId := a.byId[id := e], orders := a.orders[key := e.payload],
           raw := a.raw + 1)
  }

  function TakeAll(records: seq<Record>, m: Manifest, s: Setting): Acc
  {
    if records == [] then START else Take(TakeAll(records[..|records| - 1], m, s), records[|records| - 1], m, s)
  }

  function Placed(o: Object, raws: seq<Raw>): seq<Record>
  {
    seq(|raws|, i requires 0 <= i < |raws| => Record(o.id, i + 1, raws[i]))
  }

  /** The records of the first `n` objects, in order. */
  function ReadAll(objects: seq<Object>, files: map<string, File>, n: nat): Result<seq<Record>>
    requires n <= |objects| && forall o :: o in objects ==> o.path in files
  {
    if n == 0 then Ok([])
    else match ReadAll(objects, files, n - 1)
      case Err(code) => Err(code)
      case Ok(records) =>
        var o := objects[n - 1];
        match files[o.path].records
        case Err(code) => Err(code)
        case Ok(raws) => if |raws| != o.rowCount then Err(CBN007_ROW_COUNT) else Ok(records + Placed(o, raws))
  }

  lemma {:induction false} ChainHasFiles(objects: seq<Object>, files: map<string, File>, seen: map<string, string>,
                                         prior: string)
    requires ChainEnd(objects, files, seen, prior).Ok?
    ensures forall o :: o in objects ==> o.path in files
    decreases |objects|
  {
    hide PositionKey, Compare;
    if objects != [] {
      ChainHasFiles(objects[1..], files, seen[objects[0].id := objects[0].sha], objects[0].end);
    }
  }

  datatype Bundle = Bundle(canonical: seq<Envelope>, quarantine: seq<Rejected>, raw: nat, duplicates: nat, passed: bool)

  /** `normalize_manifest`. */
  function Bundled(m: Manifest, s: Setting): Result<Bundle>
  {
    match ManifestFault(m, s.files)
    case Some(code) => Err(code)
    case None =>
      ChainHasFiles(m.objects, s.files, map[], m.start);
      match ReadAll(m.objects, s.files, |m.objects|)
      case Err(code) => Err(code)
      case Ok(records) =>
        var a := TakeAll(records, m, s);
        Ok(Bundle(SortBy(a.accepted, e => EventKey(e, s.name)), a.quarantine, a.raw, a.duplicates, a.quarantine == []))
  }

  method TakeRecord(found: Acc, r: Record, m: Manifest, s: Setting) returns (a: Acc)
    ensures a == Take(found, r, m, s)
  {
    hide Normalized, EventKey;
    var n := Normalized(r.raw, m, s);
    if n.Err? {
      return Quarantined(found, r, n.code);
    }
    var e := n.value;
    var id, key := s.name(e.payload.identity), EventKey(e, s.name);
    if id in found.byId {
      if found.byId[id].payload == e.payload {
        return found.(duplicates := found.duplicates + 1, raw := found.raw + 1);
      }
      return Quarantined(found, r, CBN021_EVENT_PAYLOAD_CONFLICT);
    }
    if key in found.orders && found.orders[key] != e.payload {
      return Quarantined(found, r, CBN020_ORDER_KEY_CONFLICT);
    }
    a := Acc(found.accepted + [e], found.byId[id := e], found.orders[key := e.payload], found.quarantine,
             found.duplicates, found.raw + 1);
  }

  /** The records of one object, one by one. */
  method TakeObject(found: Acc, ghost before: seq<Record>, o: Object, raws: seq<Raw>, m: Manifest, s: Setting)
    returns (a: Acc)
    requires found == TakeAll(before, m, s)
    ensures a == TakeAll(before + Placed(o, raws), m, s)
  {
    hide Take;
    a := found;
    var i := 0;
    assert before + Placed(o, raws)[..0] == before;
    while i < |raws|
      invariant 0 <= i <= |raws|
      invariant a == TakeAll(before + Placed(o, raws)[..i], m, s)
    {
      var r := Record(o.id, i + 1, raws[i]);
      ghost var next := before + Placed(o, raws)[..i + 1];
      assert next[|next| - 1] == r && next[..|next| - 1] == before + Placed(o, raws)[..i];
      a := TakeRecord(a, r, m, s);
      i := i + 1;
    }
    assert Placed(o, raws)[..i] == Placed(o, raws);
  }

  method NormalizeManifest(m: Manifest, s: Setting) returns (r: Result<Bundle>)
    ensures r == Bundled(m, s)
  {
    hide Take, EventKey, ManifestFault;
    var fault := ValidateManifest(m, s.files);
    if fault.Some? {
      return Err(fault.value);
    }
    FilesThere(m, s.files);
    var a := START;
    ghost var records := [];
    var i := 0;
    while i < |m.objects|
      invariant 0 <= i <= |m.objects|
      invariant ReadAll(m.objects, s.files, i) == Ok(records) && a == TakeAll(records, m, s)
    {
      var o := m.objects[i];
      assert o in m.objects;
      var read := s.files[o.path].records;
      if read.Err? {
        ReadFails(m.objects, s.files, i + 1);
        return Err(read.code);
      }
      if |read.value| != o.rowCount {
        ReadFails(m.objects, s.files, i + 1);
        return Err(CBN007_ROW_COUNT);
      }
      a := TakeObject(a, records, o, read.value, m, s);
      records := records + Placed(o, read.value);
      i := i + 1;
    }
    var key := e => EventKey(e, s.name);
    r := Ok(Bundle(SortBy(a.accepted, key), a.quarantine, a.raw, a.duplicates, a.quarantine == []));
  }

  lemma FilesThere(m: Manifest, files: map<string, File>)
    requires ManifestFault(m, files) == None
    ensures forall o :: o in m.objects ==> o.path in files
  {
    hide PositionKey, Compare;
    ChainHasFiles(m.objects, files, map[], m.start);
  }

  lemma {:induction false} ReadFails(objects: seq<Object>, files: map<string, File>, n: nat)
    requires n <= |objects| && forall o :: o in objects ==> o.path in files
    requires ReadAll(objects, files, n).Err?
    ensures ReadAll(objects, files, |objects|) == ReadAll(objects, files, n)
    decreases |objects| - n
  {
    if n < |objects| { ReadFails(objects, files, n + 1); }
  }
}
