/**
The proof ledger (proof_control.py), its gates and manifests (proof_gates.py), and the
check that publication makes of a manifest (publication.py).  A digest of a body is the
body itself.
*/
module ProofLedger {
  import opened Common
  import opened Sorting

  const REQUIRED := ["continuity", "schema", "deletes", "reconciliation", "lag", "pre_migration", "rollback_readiness",
                     "evidence_integrity"]

  datatype GateBody = GateBody(id: string, gen: string, kind: string, frontier: string, schemaSet: string,
                               inputRevision: int,
                               inputs: seq<string>, evidence: seq<string>, producer: string, producerVersion: string,
                               verdict: string, limitations: seq<string>, invalidation: seq<string>)

  datatype Gate = Gate(body: GateBody, digest: Option<GateBody>)

  datatype Seal = Seal(body: string, digest: string)

  datatype ManifestBody = ManifestBody(gen: string, frontier: string, schemaSet: string, inputRevision: int,
                                       sealDigest: string, gates: seq<Gate>)

  datatype Manifest = Manifest(body: ManifestBody, digest: ManifestBody)

  datatype State = CDC_APPLYING | SEALED | PROVING | PROVEN

  datatype Generation = Generation(frontier: string, schemaSet: string, state: State, revision: nat,
                                   seal: Option<Seal>, manifest: Option<Manifest>)

  /** An attempt is named by the digest of its generation and revision. */
  type AttemptId = (string, nat)

  datatype Attempt = Attempt(gen: string, inputRevision: nat, closed: bool)

  datatype Ledger = Ledger(generations: map<string, Generation>, attempts: map<AttemptId, Attempt>,
                           gates: map<(AttemptId, string), Gate>)

  datatype Code =
    | CB26C001_INVALID_SEAL_STATE | CB26C002_SEAL_CONFLICT | CB26C003_INVALID_PROOF_STATE | CB26C004_GATE_CONFLICT
    | CB26C005_UNKNOWN_ATTEMPT | ASSERTION_ERROR
    | CB26G001_UNKNOWN_GATE | CB26G002_UNBOUND_GATE | CB26G003_FRONTIER_INVALID | CB26G004_EVIDENCE_INCOMPLETE
    | CB26G005_VERDICT_INVALID | CB26G006_REVISION_INVALID | CB26G008_DUPLICATE_GATE | CB26G009_GENERATION_MISMATCH
    | CB26G010_FRONTIER_MISMATCH | CB26G011_SCHEMA_MISMATCH | CB26G012_STALE_GATE | CB26G013_FAILED_GATE
    | CB26G014_MISSING_GATE | CB26G015_GATE_DIGEST_MISMATCH
    | CB27P002_GATE_SET_INVALID | CB27P003_PROOF_DIGEST

  datatype Result<+T> = Ok(value: T) | Err(code: Code)

  const EMPTY := Ledger(map[], map[], map[])

  /** `validate_gate`. */
  function GateFault(g: Gate): Option<Code>
  {
    var b := g.body;
    if b.id !in REQUIRED then Some(CB26G001_UNKNOWN_GATE)
    else if b.verdict !in {"PASS", "FAIL"} then Some(CB26G005_VERDICT_INVALID)
    else if b.kind != "postgres_lsn" || b.frontier == "" then Some(CB26G003_FRONTIER_INVALID)
    else if b.gen == "" || b.schemaSet == "" || b.producer == "" || b.producerVersion == ""
      then Some(CB26G002_UNBOUND_GATE)
    else if b.inputRevision < 0 then Some(CB26G006_REVISION_INVALID)
    else if b.inputs == [] || b.evidence == [] || b.limitations == [] || b.invalidation == []
    then Some(CB26G004_EVIDENCE_INCOMPLETE)
    else if g.digest.Some? && g.digest.value != b then Some(CB26G015_GATE_DIGEST_MISMATCH)
    else None
  }

  /** What every gate of a manifest is bound to. */
  datatype Boundary = Boundary(gen: string, frontier: string, schemaSet: string, inputRevision: int)

  /** The checks of `assemble_manifest` on one gate, when `known` ids were met before. */
  function MemberFault(g: Gate, known: set<string>, bound: Boundary): Option<Code>
  {
    if GateFault(g) != None then GateFault(g)
    else if g.body.id in known then Some(CB26G008_DUPLICATE_GATE)
    else if g.body.gen != bound.gen then Some(CB26G009_GENERATION_MISMATCH)
    else if g.body.frontier != bound.frontier then Some(CB26G010_FRONTIER_MISMATCH)
    else if g.body.schemaSet != bound.schemaSet then Some(CB26G011_SCHEMA_MISMATCH)
    else if g.body.inputRevision != bound.inputRevision then Some(CB26G012_STALE_GATE)
    else if g.body.verdict != "PASS" then Some(CB26G013_FAILED_GATE)
    else None
  }

  function Collect(gates: seq<Gate>, byId: map<string, Gate>, bound: Boundary): Result<map<string, Gate>>
    decreases |gates|
  {
    if gates == [] then Ok(byId)
    else if MemberFault(gates[0], byId.Keys, bound) != None then Err(MemberFault(gates[0], byId.Keys, bound).value)
    else Collect(gates[1..], byId[gates[0].body.id := gates[0]], bound)
  }

  predicate HasAll(byId: map<string, Gate>) { forall id :: id in REQUIRED ==> id in byId }

  function InOrder(byId: map<string, Gate>): seq<Gate>
    requires HasAll(byId)
  {
    seq(|REQUIRED|, i requires 0 <= i < |REQUIRED| => byId[REQUIRED[i]])
  }

  function BodyOf(bound: Boundary, sealDigest: string, gates: seq<Gate>): ManifestBody
  {
    ManifestBody(bound.gen, bound.frontier, bound.schemaSet, bound.inputRevision, sealDigest, gates)
  }

  /** `assemble_manifest`. */
  function Assemble(gates: seq<Gate>, bound: Boundary, sealDigest: string): Result<Manifest>
  {
    match Collect(gates, map[], bound)
    case Err(code) => Err(code)
    case Ok(byId) =>
      if !HasAll(byId) then Err(CB26G014_MISSING_GATE)
      else
        var body := BodyOf(bound, sealDigest, InOrder(byId));
        Ok(Manifest(body, body))
  }

  method AssembleManifest(gates: seq<Gate>, bound: Boundary, sealDigest: string) returns (r: Result<Manifest>)
    ensures r == Assemble(gates, bound, sealDigest)
  {
    var byId: map<string, Gate> := map[];
    var i := 0;
    while i < |gates|
      invariant 0 <= i <= |gates|
      invariant Collect(gates, map[], bound) == Collect(gates[i..], byId, bound)
    {
      assert gates[i..][0] == gates[i] && gates[i..][1..] == gates[i + 1..];
      var fault := MemberFault(gates[i], byId.Keys, bound);
      if fault.Some? {
        return Err(fault.value);
      }
      byId := byId[gates[i].body.id := gates[i]];
      i := i + 1;
    }
    if !HasAll(byId) {
      return Err(CB26G014_MISSING_GATE);
    }
    var body := BodyOf(bound, sealDigest, InOrder(byId));
    r := Ok(Manifest(body, body));
  }

  function GateFaults(gates: seq<Gate>): Option<Code>
    decreases |gates|
  {
    if gates == [] then None else if GateFault(gates[0]) != None then GateFault(gates[0]) else GateFaults(gates[1..])
  }

  function IdsOf(gates: seq<Gate>): seq<string> { seq(|gates|, i requires 0 <= i < |gates| => gates[i].body.id) }

  /** Publication's `validate_proof_manifest`. */
  function ManifestFault(m: Manifest): Option<Code>
  {
    var b := m.body;
    if GateFaults(b.gates) != None then GateFaults(b.gates)
    else if IdsOf(b.gates) != REQUIRED then Some(CB27P002_GATE_SET_INVALID)
    else match Assemble(b.gates, Boundary(b.gen, b.frontier, b.schemaSet, b.inputRevision), b.sealDigest)
      case Err(code) => Some(code)
      case Ok(rebuilt) => if rebuilt != m then Some(CB27P003_PROOF_DIGEST) else None
  }

  method ValidateProofManifest(m: Manifest) returns (fault: Option<Code>)
    ensures fault == ManifestFault(m)
  {
    var b := m.body;
    var i := 0;
    while i < |b.gates|
      invariant 0 <= i <= |b.gates|
      invariant GateFaults(b.gates) == GateFaults(b.gates[i..])
    {
      assert b.gates[i..][0] == b.gates[i] && b.gates[i..][1..] == b.gates[i + 1..];
      fault := GateFault(b.gates[i]);
      if fault.Some? {
        return;
      }
      i := i + 1;
    }
    if IdsOf(b.gates) != REQUIRED {
      return Some(CB27P002_GATE_SET_INVALID);
    }
    var rebuilt := AssembleManifest(b.gates, Boundary(b.gen, b.frontier, b.schemaSet, b.inputRevision), b.sealDigest);
    if rebuilt.Err? {
      return Some(rebuilt.code);
    }
    fault := if rebuilt.value != m then Some(CB27P003_PROOF_DIGEST) else None;
  }

  function RegisterCandidate(l: Ledger, gen: string, frontier: string, schemaSet: string): Ledger
  {
    if gen in l.generations then l
    else l.(generations := l.generations[gen := Generation(frontier, schemaSet, CDC_APPLYING, 0, None, None)])
  }

  function SealGeneration(l: Ledger, gen: string, seal: Seal): Result<Ledger>
  {
    if gen !in l.generations || l.generations[gen].state !in {CDC_APPLYING, SEALED}
      then Err(CB26C001_INVALID_SEAL_STATE)
    else
      var g := l.generations[gen];
      if g.seal != None && g.seal != Some(seal) then Err(CB26C002_SEAL_CONFLICT)
      else Ok(l.(generations := l.generations[gen := g.(state := SEALED, revision := 1, seal := Some(seal))]))
  }

  function BeginProof(l: Ledger, gen: string): Result<(Ledger, AttemptId)>
  {
    if gen !in l.generations || l.generations[gen].state !in {SEALED, PROVING} then Err(CB26C003_INVALID_PROOF_STATE)
    else
      var g := l.generations[gen];
      var a := (gen, g.revision);
      var attempts := if a in l.attempts then l.attempts else l.attempts[a := Attempt(gen, g.revision, false)];
      Ok((l.(attempts := attempts, generations := l.generations[gen := g.(state := PROVING)]), a))
  }

  function RecordGate(l: Ledger, a: AttemptId, g: Gate): Result<Ledger>
  {
    if GateFault(g) != None then Err(GateFault(g).value)
    else if (a, g.body.id) in l.gates then
      if l.gates[(a, g.body.id)] != g then Err(CB26C004_GATE_CONFLICT) else Ok(l)
    else Ok(l.(gates := l.gates[(a, g.body.id) := g]))
  }

  function GateIds(l: Ledger, a: AttemptId): set<string> { set k | k in l.gates && k.0 == a :: k.1 }

  /** The attempt's gates in the order of their ids. */
  ghost function GatesOf(l: Ledger, a: AttemptId): seq<Gate>
  {
    var ids := Listing(GateIds(l, a));
    seq(|ids|, i requires 0 <= i < |ids| => assert ids[i] in ids; l.gates[(a, ids[i])])
  }

  function BoundaryOf(l: Ledger, attempt: Attempt): Boundary
    requires attempt.gen in l.generations
  {
    var g := l.generations[attempt.gen];
    Boundary(attempt.gen, g.frontier, g.schemaSet, attempt.inputRevision)
  }

  ghost function SealManifest(l: Ledger, a: AttemptId): Result<(Ledger, Manifest)>
  {
    if a !in l.attempts then Err(CB26C005_UNKNOWN_ATTEMPT)
    else
      var attempt := l.attempts[a];
      if attempt.gen !in l.generations || l.generations[attempt.gen].seal == None then Err(ASSERTION_ERROR)
      else
        var g := l.generations[attempt.gen];
        match Assemble(GatesOf(l, a), BoundaryOf(l, attempt), g.seal.value.digest)
        case Err(code) => Err(code)
        case Ok(m) =>
          Ok((l.(attempts := l.attempts[a := attempt.(closed := true)],
                 generations :=
                   l.generations[attempt.gen := g.(state := PROVEN, revision := 2, manifest := Some(m))]), m))
  }

  /** proof_control.py's `ProofControlStore`. */
  class ProofControlStore {
    var generations: map<string, Generation>
    var attempts: map<AttemptId, Attempt>
    var gates: map<(AttemptId, string), Gate>

    ghost function Value(): Ledger
      reads this
    {
      Ledger(generations, attempts, gates)
    }

    constructor ()
      ensures Value() == EMPTY
    {
      generations, attempts, gates := map[], map[], map[];
    }

    method Register(gen: string, frontier: string, schemaSet: string)
      modifies this
      ensures Value() == RegisterCandidate(old(Value()), gen, frontier, schemaSet)
    {
      if gen !in generations {
        generations := generations[gen := Generation(frontier, schemaSet, CDC_APPLYING, 0, None, None)];
      }
    }

    method SealWith(gen: string, seal: Seal) returns (code: Option<Code>)
      modifies this
      ensures match SealGeneration(old(Value()), gen, seal)
              case Ok(l) => code == None && Value() == l
              case Err(c) => code == Some(c) && Value() == old(Value())
    {
      if gen !in generations || generations[gen].state !in {CDC_APPLYING, SEALED} {
        return Some(CB26C001_INVALID_SEAL_STATE);
      }
      var g := generations[gen];
      if g.seal != None && g.seal != Some(seal) {
        return Some(CB26C002_SEAL_CONFLICT);
      }
      generations := generations[gen := g.(state := SEALED, revision := 1, seal := Some(seal))];
      code := None;
    }

    method Begin(gen: string) returns (r: Result<AttemptId>)
      modifies this
      ensures match BeginProof(old(Value()), gen)
              case Ok((l, a)) => r == Ok(a) && Value() == l
              case Err(c) => r == Err(c) && Value() == old(Value())
    {
      if gen !in generations || generations[gen].state !in {SEALED, PROVING} {
        return Err(CB26C003_INVALID_PROOF_STATE);
      }
      var g := generations[gen];
      var a := (gen, g.revision);
      if a !in attempts {
        attempts := attempts[a := Attempt(gen, g.revision, false)];
      }
      generations := generations[gen := g.(state := PROVING)];
      r := Ok(a);
    }

    method Record(a: AttemptId, g: Gate) returns (code: Option<Code>)
      modifies this
      ensures match RecordGate(old(Value()), a, g)
              case Ok(l) => code == None && Value() == l
              case Err(c) => code == Some(c) && Value() == old(Value())
    {
      code := GateFault(g);
      if code.Some? {
        return;
      }
      if (a, g.body.id) in gates {
        return if gates[(a, g.body.id)] != g then Some(CB26C004_GATE_CONFLICT) else None;
      }
      gates := gates[(a, g.body.id) := g];
    }

    method ReadGates(a: AttemptId) returns (r: seq<Gate>)
      ensures r == GatesOf(Value(), a)
    {
      var ids := SortedOf(set k | k in gates && k.0 == a :: k.1);
      assert forall id :: id in ids <==> id in GateIds(Value(), a);
      r := [];
      var i := 0;
      while i < |ids|
        invariant 0 <= i <= |ids| && |r| == i
        invariant forall j :: 0 <= j < i ==> (a, ids[j]) in gates && r[j] == gates[(a, ids[j])]
      {
        assert ids[i] in ids;
        r := r + [gates[(a, ids[i])]];
        i := i + 1;
      }
    }

    method SealAttempt(a: AttemptId) returns (r: Result<Manifest>)
      modifies this
      ensures match SealManifest(old(Value()), a)
              case Ok((l, m)) => r == Ok(m) && Value() == l
              case Err(c) => r == Err(c) && Value() == old(Value())
    {
      if a !in attempts {
        return Err(CB26C005_UNKNOWN_ATTEMPT);
      }
      var attempt := attempts[a];
      if attempt.gen !in generations || generations[attempt.gen].seal == None {
        return Err(ASSERTION_ERROR);
      }
      var g := generations[attempt.gen];
      var found := ReadGates(a);
      r :=
        AssembleManifest(found, Boundary(attempt.gen, g.frontier, g.schemaSet, attempt.inputRevision),
                         g.seal.value.digest);
      if r.Ok? {
        attempts := attempts[a := attempt.(closed := true)];
        generations := generations[attempt.gen := g.(state := PROVEN, revision := 2, manifest := Some(r.value))];
      }
    }
  }
}
