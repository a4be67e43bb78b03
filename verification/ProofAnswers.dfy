/**
What the proof ledger answers: which gates and manifests are valid, which calls succeed
in every run, and the cause of every refusal.
*/
module ProofAnswers {
  import opened Common
  import opened Sorting
  import opened ProofLedger
  import opened ProofLedgerFacts

  /** One of the eight gates. */
  predicate Known(id: string)
  {
    || id == "continuity" || id == "schema" || id == "deletes" || id == "reconciliation" || id == "lag"
    || id == "pre_migration" || id == "rollback_readiness" || id == "evidence_integrity"
  }

  lemma KnownMeans(id: string)
    ensures Known(id) <==> id in REQUIRED
  {
    assert REQUIRED[0] == "continuity" && REQUIRED[1] == "schema" && REQUIRED[2] == "deletes";
    assert REQUIRED[3] == "reconciliation" && REQUIRED[4] == "lag" && REQUIRED[5] == "pre_migration";
    assert REQUIRED[6] == "rollback_readiness" && REQUIRED[7] == "evidence_integrity";
  }

  predicate Judged(b: GateBody) { b.verdict == "PASS" || b.verdict == "FAIL" }

  predicate Positioned(b: GateBody) { b.kind == "postgres_lsn" && b.frontier != "" }

  predicate Named(b: GateBody) { b.gen != "" && b.schemaSet != "" && b.producer != "" && b.producerVersion != "" }

  predicate Evident(b: GateBody)
  {
    |b.inputs| > 0 && |b.evidence| > 0 && |b.limitations| > 0 && |b.invalidation| > 0
  }

  predicate Undigested(g: Gate) { g.digest == None || g.digest == Some(g.body) }

  predicate ValidGate(g: Gate)
  {
    && Known(g.body.id) && Judged(g.body) && Positioned(g.body) && Named(g.body) && g.body.inputRevision >= 0
    && Evident(g.body) && Undigested(g)
  }

  /** Why a gate is invalid. */
  predicate GateCause(g: Gate, code: Code)
  {
    var b := g.body;
    var judged := Known(b.id) && Judged(b);
    var named := judged && Positioned(b) && Named(b);
    match code
    case CB26G001_UNKNOWN_GATE => !Known(b.id)
    case CB26G005_VERDICT_INVALID => Known(b.id) && !Judged(b)
    case CB26G003_FRONTIER_INVALID => judged && !Positioned(b)
    case CB26G002_UNBOUND_GATE => judged && Positioned(b) && !Named(b)
    case CB26G006_REVISION_INVALID => named && b.inputRevision < 0
    case CB26G004_EVIDENCE_INCOMPLETE => named && b.inputRevision >= 0 && !Evident(b)
    case CB26G015_GATE_DIGEST_MISMATCH => named && b.inputRevision >= 0 && Evident(b) && !Undigested(g)
    case _ => false
  }

  lemma GateMeans(g: Gate)
    ensures GateFault(g) == None <==> ValidGate(g)
    ensures GateFault(g).Some? ==> GateCause(g, GateFault(g).value)
  {
    KnownMeans(g.body.id);
  }

  /** The gate passes and is of the boundary. */
  predicate Fits(g: Gate, bound: Boundary)
  {
    && g.body.verdict == "PASS"
    && (g.body.gen, g.body.frontier, g.body.schemaSet, g.body.inputRevision)
       == (bound.gen, bound.frontier, bound.schemaSet, bound.inputRevision)
  }

  /** The gate is valid, fits and is the first of its id. */
  ghost predicate Counts(gates: seq<Gate>, i: int, bound: Boundary)
    requires 0 <= i < |gates|
  {
    && ValidGate(gates[i]) && Fits(gates[i], bound)
    && forall j :: 0 <= j < i ==> gates[j].body.id != gates[i].body.id
  }

  /** Why a gate does not count. */
  ghost predicate MemberCause(gates: seq<Gate>, i: int, bound: Boundary, code: Code)
    requires 0 <= i < |gates|
  {
    var b := gates[i].body;
    var first := ValidGate(gates[i]) && forall j :: 0 <= j < i ==> gates[j].body.id != b.id;
    match code
    case CB26G008_DUPLICATE_GATE => ValidGate(gates[i]) && !first
    case CB26G009_GENERATION_MISMATCH => first && b.gen != bound.gen
    case CB26G010_FRONTIER_MISMATCH => first && b.gen == bound.gen && b.frontier != bound.frontier
    case CB26G011_SCHEMA_MISMATCH =>
      first && (b.gen, b.frontier) == (bound.gen, bound.frontier) && b.schemaSet != bound.schemaSet
    case CB26G012_STALE_GATE =>
      && first && (b.gen, b.frontier, b.schemaSet) == (bound.gen, bound.frontier, bound.schemaSet)
      && b.inputRevision != bound.inputRevision
    case CB26G013_FAILED_GATE =>
      && first && b.verdict == "FAIL"
      && (b.gen, b.frontier, b.schemaSet, b.inputRevision)
         == (bound.gen, bound.frontier, bound.schemaSet, bound.inputRevision)
    case _ => GateCause(gates[i], code)
  }

  /** All gates count. */
  ghost predicate AllCount(gates: seq<Gate>, bound: Boundary)
  {
    forall i :: 0 <= i < |gates| ==> Counts(gates, i, bound)
  }

  /** Each of the eight gates is there. */
  ghost predicate Complete(gates: seq<Gate>)
  {
    forall id :: Known(id) ==> exists g :: g in gates && g.body.id == id
  }

  /** The first gate that does not count has this cause. */
  ghost predicate FirstFailing(gates: seq<Gate>, bound: Boundary, code: Code)
  {
    exists i :: 0 <= i < |gates| && MemberCause(gates, i, bound, code)
                && forall j :: 0 <= j < i ==> Counts(gates, j, bound)
  }

  /** Why no manifest is assembled. */
  ghost predicate AssemblyCause(gates: seq<Gate>, bound: Boundary, code: Code)
  {
    if AllCount(gates, bound) then code == CB26G014_MISSING_GATE && !Complete(gates)
    else FirstFailing(gates, bound, code)
  }

  ghost predicate IdsAre(gates: seq<Gate>, k: nat, byId: map<string, Gate>)
    requires k <= |gates|
  {
    forall id :: id in byId <==> exists j :: 0 <= j < k && gates[j].body.id == id
  }

  lemma MemberMeans(gates: seq<Gate>, k: nat, byId: map<string, Gate>, bound: Boundary)
    requires k < |gates| && IdsAre(gates, k, byId)
    ensures var fault := MemberFault(gates[k], byId.Keys, bound);
      && (fault == None <==> Counts(gates, k, bound))
      && (fault.Some? ==> MemberCause(gates, k, bound, fault.value))
  {
    hide GateFault, ValidGate, GateCause;
    GateMeans(gates[k]);
    JudgedMeans(gates[k]);
    if GateFault(gates[k]).Some? { GateCodes(gates[k], GateFault(gates[k]).value); }
  }

  lemma GateCodes(g: Gate, code: Code)
    requires GateCause(g, code)
    ensures !code.CB26G008_DUPLICATE_GATE? && !code.CB26G009_GENERATION_MISMATCH? && !code.CB26G010_FRONTIER_MISMATCH?
    ensures !code.CB26G011_SCHEMA_MISMATCH? && !code.CB26G012_STALE_GATE? && !code.CB26G013_FAILED_GATE?
  {
  }

  lemma JudgedMeans(g: Gate)
    ensures ValidGate(g) ==> Judged(g.body)
  {
  }

  lemma {:induction false} CollectAnswers(gates: seq<Gate>, k: nat, byId: map<string, Gate>, bound: Boundary)
    requires k <= |gates| && IdsAre(gates, k, byId) && forall j :: 0 <= j < k ==> Counts(gates, j, bound)
    ensures var r := Collect(gates[k..], byId, bound);
      && (r.Ok? <==> AllCount(gates, bound))
      && (r.Ok? ==> IdsAre(gates, |gates|, r.value))
      && (r.Err? ==> FirstFailing(gates, bound, r.code))
    decreases |gates| - k
  {
    hide MemberFault, Counts, MemberCause, IdsAre;
    if k < |gates| {
      assert gates[k..][0] == gates[k] && gates[k..][1..] == gates[k + 1..];
      MemberMeans(gates, k, byId, bound);
      if Counts(gates, k, bound) {
        IdsMore(gates, k, byId);
        CollectAnswers(gates, k + 1, byId[gates[k].body.id := gates[k]], bound);
      }
    }
  }

  lemma IdsMore(gates: seq<Gate>, k: nat, byId: map<string, Gate>)
    requires k < |gates| && IdsAre(gates, k, byId)
    ensures IdsAre(gates, k + 1, byId[gates[k].body.id := gates[k]])
  {
  }

  /** The manifest names its boundary and seal, and is its own digest's body. */
  predicate Binds(m: Manifest, bound: Boundary, sealDigest: string)
  {
    && m.body.gen == bound.gen && m.body.frontier == bound.frontier && m.body.schemaSet == bound.schemaSet
    && m.body.inputRevision == bound.inputRevision && m.body.sealDigest == sealDigest && m.digest == m.body
  }

  /**
  Assembly succeeds exactly if every gate is valid, passes, is of the boundary and has its
  own id, and each of the eight is there; else the first gate that fails, or the missing
  one, says why.
  */
  lemma AssemblyAnswer(gates: seq<Gate>, bound: Boundary, sealDigest: string)
    ensures var r := Assemble(gates, bound, sealDigest);
      && (r.Ok? <==> AllCount(gates, bound) && Complete(gates))
      && (r.Ok? ==> Sound(r.value, bound, sealDigest) && forall g :: g in r.value.body.gates ==> g in gates)
      && (r.Ok? ==> Binds(r.value, bound, sealDigest))
      && (r.Err? ==> AssemblyCause(gates, bound, r.code))
  {
    hide Collect, AllCount, FirstFailing, Sound, IdsAre;
    assert gates[0..] == gates;
    NoIds(gates);
    CollectAnswers(gates, 0, map[], bound);
    if Collect(gates, map[], bound).Ok? { AllThere(gates, Collect(gates, map[], bound).value); }
    if Assemble(gates, bound, sealDigest).Ok? { AssembledIsSound(gates, bound, sealDigest); }
  }

  lemma NoIds(gates: seq<Gate>)
    ensures IdsAre(gates, 0, map[])
  {
  }

  lemma AllThere(gates: seq<Gate>, byId: map<string, Gate>)
    requires IdsAre(gates, |gates|, byId)
    ensures HasAll(byId) <==> Complete(gates)
  {
    hide Known;
    forall id ensures Known(id) <==> id in REQUIRED { KnownMeans(id); }
    forall id ensures id in byId <==> exists g :: g in gates && g.body.id == id {
      if g :| g in gates && g.body.id == id {
        var j :| 0 <= j < |gates| && gates[j] == g;
      }
    }
  }

  /** The gates are the eight, in their order. */
  predicate InPlace(gates: seq<Gate>)
  {
    && |gates| == 8 && gates[0].body.id == "continuity" && gates[1].body.id == "schema" && gates[2].body.id == "deletes"
    && gates[3].body.id == "reconciliation" && gates[4].body.id == "lag" && gates[5].body.id == "pre_migration"
    && gates[6].body.id == "rollback_readiness" && gates[7].body.id == "evidence_integrity"
  }

  /** Why publication refuses a manifest. */
  ghost predicate RefusalCause(m: Manifest, code: Code)
  {
    var b := m.body;
    var bound := Boundary(b.gen, b.frontier, b.schemaSet, b.inputRevision);
    if exists g :: g in b.gates && !ValidGate(g) then exists g :: g in b.gates && GateCause(g, code)
    else if !InPlace(b.gates) then code == CB27P002_GATE_SET_INVALID
    else if exists i :: 0 <= i < 8 && !Fits(b.gates[i], bound) then AssemblyCause(b.gates, bound, code)
    else code == CB27P003_PROOF_DIGEST && m.digest != b
  }

  lemma {:induction false} FaultsMean(gates: seq<Gate>)
    ensures GateFaults(gates) == None <==> forall g :: g in gates ==> ValidGate(g)
    ensures GateFaults(gates).Some? ==> exists g :: g in gates && GateCause(g, GateFaults(gates).value)
    decreases |gates|
  {
    hide GateFault, ValidGate, GateCause;
    if gates != [] {
      assert gates == [gates[0]] + gates[1..];
      FaultsMean(gates[1..]);
      GateMeans(gates[0]);
      if GateFault(gates[0]).Some? { assert gates[0] in gates; }
    }
  }

  lemma PlaceMeans(gates: seq<Gate>)
    ensures IdsOf(gates) == REQUIRED <==> InPlace(gates)
    ensures InPlace(gates) ==> Complete(gates) && forall i, j :: 0 <= i < j < 8 ==> gates[i].body.id != gates[j].body.id
  {
    var ids := IdsOf(gates);
    if ids == REQUIRED {
      assert |gates| == |ids| == 8;
      assert forall i :: 0 <= i < 8 ==> gates[i].body.id == ids[i];
    }
    if InPlace(gates) {
      assert forall i :: 0 <= i < 8 ==> gates[i] in gates;
      assert forall i :: 0 <= i < 8 ==> ids[i] == gates[i].body.id;
      assert ids == REQUIRED;
    }
  }

  /**
  Publication accepts a manifest exactly if its gates are the eight in order, each valid,
  passing and of the manifest's boundary, and its digest is that of its body; else its
  code has its cause.
  */
  lemma ManifestAnswer(m: Manifest)
    ensures var b, fault := m.body, ManifestFault(m);
      var bound := Boundary(b.gen, b.frontier, b.schemaSet, b.inputRevision);
      && (fault == None <==> InPlace(b.gates) && (forall g :: g in b.gates ==> ValidGate(g) && Fits(g, bound))
                             && m.digest == b)
      && (fault.Some? ==> RefusalCause(m, fault.value))
  {
    hide GateFaults, ValidGate, GateCause, InPlace, Assemble, AssemblyCause, Sound, Fits, Complete, AllCount, IdsOf;
    var b := m.body;
    var bound := Boundary(b.gen, b.frontier, b.schemaSet, b.inputRevision);
    FaultsMean(b.gates);
    PlaceMeans(b.gates);
    AssemblyAnswer(b.gates, bound, b.sealDigest);
    if InPlace(b.gates) && forall g :: g in b.gates ==> ValidGate(g) {
      EightCount(b.gates, bound);
      if AllCount(b.gates, bound) { Rebuilt(b.gates, bound, b.sealDigest, m); }
    }
  }

  lemma EightCount(gates: seq<Gate>, bound: Boundary)
    requires InPlace(gates) && forall g :: g in gates ==> ValidGate(g)
    ensures AllCount(gates, bound) <==> forall g :: g in gates ==> Fits(g, bound)
    ensures (exists i :: 0 <= i < 8 && !Fits(gates[i], bound)) <==> !(forall g :: g in gates ==> Fits(g, bound))
    ensures |gates| == 8
  {
    hide ValidGate, Fits, Complete, IdsOf;
    PlaceMeans(gates);
    EightLong(gates);
    hide InPlace;
    assert forall i :: 0 <= i < 8 ==> gates[i] in gates;
    if AllCount(gates, bound) {
      forall g | g in gates ensures Fits(g, bound) {
        var i :| 0 <= i < |gates| && gates[i] == g;
        assert Counts(gates, i, bound);
      }
    }
  }

  lemma EightLong(gates: seq<Gate>)
    ensures InPlace(gates) ==> |gates| == 8
  {
  }

  /** Assembling gates in order gives back a manifest of just them. */
  lemma Rebuilt(gates: seq<Gate>, bound: Boundary, sealDigest: string, m: Manifest)
    requires AllCount(gates, bound) && InPlace(gates) && Assemble(gates, bound, sealDigest).Ok?
    requires m.body == BodyOf(bound, sealDigest, gates)
    ensures Assemble(gates, bound, sealDigest).value == m <==> m.digest == m.body
  {
    hide ValidGate, Fits, Complete, GateFault, InPlace, BodyOf, IdsOf;
    AssembledIsSound(gates, bound, sealDigest);
    var r := Assemble(gates, bound, sealDigest).value;
    PlaceMeans(gates);
    SameGates(gates, r.body.gates);
  }

  lemma SameGates(gates: seq<Gate>, made: seq<Gate>)
    requires IdsOf(gates) == REQUIRED && IdsOf(made) == REQUIRED && forall g :: g in made ==> g in gates
    ensures made == gates
  {
    assert |gates| == |IdsOf(gates)| == 8 && |made| == |IdsOf(made)| == 8;
    RequiredDistinct();
    forall i | 0 <= i < 8 ensures made[i] == gates[i] {
      assert made[i] in made;
      var j :| 0 <= j < 8 && gates[j] == made[i];
      assert IdsOf(gates)[j] == IdsOf(made)[i] == REQUIRED[i] == REQUIRED[j];
    }
  }

  /** The gate first stored for an attempt under an id. */
  function FirstGate(ops: seq<Op>, a: AttemptId, id: string): Option<Gate>
    decreases |ops|
  {
    if ops == [] then None
    else if ops[0].GateOp? && ops[0].attempt == a && ops[0].gate.body.id == id && ValidGate(ops[0].gate)
    then Some(ops[0].gate)
    else FirstGate(ops[1..], a, id)
  }

  lemma {:induction false} GatesStay(l: Ledger, ops: seq<Op>, k: (AttemptId, string))
    requires k in l.gates
    ensures k in Run(l, ops).gates && Run(l, ops).gates[k] == l.gates[k]
    decreases |ops|
  {
    hide GateFault, Assemble;
    if ops != [] { GatesStay(Step(l, ops[0]), ops[1..], k); }
  }

  lemma {:induction false} StoredIsFirst(l: Ledger, ops: seq<Op>, a: AttemptId, id: string)
    requires (a, id) !in l.gates
    ensures (a, id) in Run(l, ops).gates <==> FirstGate(ops, a, id).Some?
    ensures FirstGate(ops, a, id).Some? ==> Run(l, ops).gates[(a, id)] == FirstGate(ops, a, id).value
    decreases |ops|
  {
    hide GateFault, ValidGate, Assemble;
    if ops != [] {
      if ops[0].GateOp? { GateMeans(ops[0].gate); }
      if (a, id) in Step(l, ops[0]).gates {
        GatesStay(Step(l, ops[0]), ops[1..], (a, id));
      } else {
        StoredIsFirst(Step(l, ops[0]), ops[1..], a, id);
      }
    }
  }

  /**
  Recording a gate, in every run.  A valid gate is recorded exactly if it is the first of
  its id for the attempt, or that very gate again; other content under the id is a
  conflict, and an invalid gate is refused for what is wrong with it.
  */
  lemma GateAnswer(ops: seq<Op>, a: AttemptId, g: Gate)
    ensures var l, first := Run(EMPTY, ops), FirstGate(ops, a, g.body.id);
      var r := RecordGate(l, a, g);
      && (r.Ok? <==> ValidGate(g) && (first == None || first == Some(g)))
      && (r.Ok? ==> r.value == l.(gates := l.gates[(a, g.body.id) := g]))
      && (r.Ok? && first.Some? ==> r.value == l)
      && (r.Err? ==> if ValidGate(g) then r.code == CB26C004_GATE_CONFLICT else GateCause(g, r.code))
  {
    hide Run, GateFault, ValidGate, GateCause;
    GateMeans(g);
    StoredIsFirst(EMPTY, ops, a, g.body.id);
  }

  /** Registering, in every run: a new name gets a generation that applies changes, a known one stays. */
  lemma RegisterAnswer(l: Ledger, gen: string, frontier: string, schemaSet: string)
    ensures var r := RegisterCandidate(l, gen, frontier, schemaSet);
      && r == l.(generations := r.generations) && r.generations.Keys == l.generations.Keys + {gen}
      && (forall other :: other in l.generations ==> r.generations[other] == l.generations[other])
      && (gen !in l.generations ==> r.generations[gen] == Generation(frontier, schemaSet, CDC_APPLYING, 0, None, None))
  {
  }

  /**
  Sealing a generation, in every run.  It succeeds exactly on a registered generation that
  applies changes, or that is sealed with this very seal and has no attempt yet.
  */
  lemma SealAnswer(ops: seq<Op>, gen: string, seal: Seal)
    ensures var l := Run(EMPTY, ops);
      var r := SealGeneration(l, gen, seal);
      var again := gen in l.generations && l.generations[gen].state == SEALED && l.generations[gen].seal == Some(seal);
      && (r.Ok? <==> again || (gen in l.generations && l.generations[gen].state == CDC_APPLYING))
      && (again ==> r == Ok(l))
      && (r.Ok? && !again ==> r.value == l.(generations := l.generations[gen :=
            Generation(l.generations[gen].frontier, l.generations[gen].schemaSet, SEALED, 1, Some(seal), None)]))
      && (r.Err? ==> r.code == if gen in l.generations && l.generations[gen].state == SEALED
                               then CB26C002_SEAL_CONFLICT else CB26C001_INVALID_SEAL_STATE)
  {
    hide Run, Sound, Holds;
    RunKeeps(EMPTY, ops);
    var l := Run(EMPTY, ops);
    if gen in l.generations {
      assert GenerationFits(l, gen);
      assert l.generations[gen := l.generations[gen]] == l.generations;
    }
  }

  /**
  Beginning a proof, in every run.  It succeeds exactly on a sealed generation, or one
  whose proof was begun and not finished, which has its one attempt already.
  */
  lemma BeginAnswer(ops: seq<Op>, gen: string)
    ensures var l, a := Run(EMPTY, ops), (gen, 1);
      var r := BeginProof(l, gen);
      && (r.Ok? <==> gen in l.generations
                     && (l.generations[gen].state == SEALED || l.generations[gen].state == PROVING))
      && (r.Ok? ==> r.value.1 == a)
      && (r.Ok? && l.generations[gen].state == PROVING ==> r.value.0 == l)
      && (r.Ok? && l.generations[gen].state == SEALED ==>
            && r.value.0 == l.(attempts := l.attempts[a := Attempt(gen, 1, false)],
                               generations := l.generations[gen := l.generations[gen].(state := PROVING)]))
      && (r.Err? ==> r.code == CB26C003_INVALID_PROOF_STATE)
  {
    hide Run, Sound, Holds;
    RunKeeps(EMPTY, ops);
    var l := Run(EMPTY, ops);
    if gen in l.generations {
      assert GenerationFits(l, gen);
      if l.generations[gen].state == PROVING {
        assert l.generations[gen := l.generations[gen].(state := PROVING)] == l.generations;
      }
    }
  }

  /** The gates of an attempt are stored under their ids. */
  ghost predicate WellStored(l: Ledger)
  {
    forall k :: k in l.gates ==> l.gates[k].body.id == k.1 && ValidGate(l.gates[k])
  }

  lemma OnlyGatesAreStored(l: Ledger, op: Op)
    ensures !op.GateOp? ==> Step(l, op).gates == l.gates
  {
    hide Assemble;
  }

  lemma GateIsStored(l: Ledger, a: AttemptId, g: Gate)
    requires WellStored(l)
    ensures WellStored(Step(l, GateOp(a, g)))
  {
    hide GateFault, ValidGate;
    GateMeans(g);
  }

  lemma {:induction false} StoredAreValid(l: Ledger, ops: seq<Op>)
    requires WellStored(l)
    ensures WellStored(Run(l, ops))
    decreases |ops|
  {
    hide ValidGate, Step;
    if ops != [] {
      if ops[0].GateOp? { GateIsStored(l, ops[0].attempt, ops[0].gate); } else { OnlyGatesAreStored(l, ops[0]); }
      StoredAreValid(Step(l, ops[0]), ops[1..]);
    }
  }

  lemma GatesAreListed(l: Ledger, a: AttemptId)
    requires WellStored(l)
    ensures var gates := GatesOf(l, a);
      && (forall i, j :: 0 <= i < j < |gates| ==> gates[i].body.id != gates[j].body.id)
      && (forall g :: g in gates <==> (a, g.body.id) in l.gates && l.gates[(a, g.body.id)] == g)
      && (forall g :: g in gates ==> ValidGate(g))
  {
    hide ValidGate, Lists;
    var ids, gates := Listing(GateIds(l, a)), GatesOf(l, a);
    ListedOnce(GateIds(l, a));
    forall i | 0 <= i < |ids|
      ensures (a, ids[i]) in l.gates && gates[i] == l.gates[(a, ids[i])] && gates[i].body.id == ids[i]
    {
      assert ids[i] in ids;
    }
    forall g ensures g in gates <==> (a, g.body.id) in l.gates && l.gates[(a, g.body.id)] == g {
      if (a, g.body.id) in l.gates && l.gates[(a, g.body.id)] == g {
        assert g.body.id in GateIds(l, a) && g.body.id in ids;
        var i :| 0 <= i < |ids| && ids[i] == g.body.id;
        assert gates[i] == g;
      }
    }
  }

  lemma ListedOnce(s: set<string>)
    ensures Distinct(Listing(s))
  {
    assert Lists(Listing(s), s);
  }

  /** The gates stored for the attempt pass and are of its boundary. */
  ghost predicate StoredFit(l: Ledger, a: AttemptId, bound: Boundary)
  {
    forall k :: k in l.gates && k.0 == a ==> Fits(l.gates[k], bound)
  }

  /** Each of the eight is stored for the attempt. */
  ghost predicate StoredAll(l: Ledger, a: AttemptId) { forall id :: Known(id) ==> (a, id) in l.gates }

  /** What a stored gate of the attempt has against it. */
  ghost predicate MisfitCause(l: Ledger, a: AttemptId, bound: Boundary, code: Code)
  {
    exists k :: k in l.gates && k.0 == a && !Fits(l.gates[k], bound) && Misfit(l.gates[k].body, bound) == code
  }

  /** The first thing in which a gate differs from the boundary, or else that it failed. */
  function Misfit(b: GateBody, bound: Boundary): Code
  {
    if b.gen != bound.gen then CB26G009_GENERATION_MISMATCH
    else if b.frontier != bound.frontier then CB26G010_FRONTIER_MISMATCH
    else if b.schemaSet != bound.schemaSet then CB26G011_SCHEMA_MISMATCH
    else if b.inputRevision != bound.inputRevision then CB26G012_STALE_GATE
    else CB26G013_FAILED_GATE
  }

  lemma ListedCount(l: Ledger, a: AttemptId, bound: Boundary)
    requires WellStored(l)
    ensures AllCount(GatesOf(l, a), bound) <==> StoredFit(l, a, bound)
    ensures Complete(GatesOf(l, a)) <==> StoredAll(l, a)
  {
    hide ValidGate, Known, Fits;
    GatesAreListed(l, a);
    var gates := GatesOf(l, a);
    if AllCount(gates, bound) {
      forall k | k in l.gates && k.0 == a ensures Fits(l.gates[k], bound) {
        assert k == (a, l.gates[k].body.id) && l.gates[k] in gates;
        var i :| 0 <= i < |gates| && gates[i] == l.gates[k];
        assert Counts(gates, i, bound);
      }
    }
    if StoredFit(l, a, bound) {
      forall i | 0 <= i < |gates| ensures Counts(gates, i, bound) { assert gates[i] in gates; }
    }
    forall id ensures (exists g :: g in gates && g.body.id == id) <==> (a, id) in l.gates {
      if (a, id) in l.gates { assert l.gates[(a, id)] in gates; }
    }
  }

  lemma FailingMisfits(l: Ledger, a: AttemptId, bound: Boundary, code: Code)
    requires WellStored(l) && FirstFailing(GatesOf(l, a), bound, code)
    ensures MisfitCause(l, a, bound, code)
  {
    hide ValidGate, MemberCause, Counts, Misfit, Fits, WellStored, GatesOf;
    GatesAreListed(l, a);
    var gates := GatesOf(l, a);
    var i :| 0 <= i < |gates| && MemberCause(gates, i, bound, code)
             && forall j :: 0 <= j < i ==> Counts(gates, j, bound);
    assert gates[i] in gates;
    MemberMisfits(gates, i, bound, code);
    var k := (a, gates[i].body.id);
    assert k in l.gates && l.gates[k] == gates[i];
  }

  /** A valid gate with an id of its own that does not count misses the boundary. */
  lemma MemberMisfits(gates: seq<Gate>, i: int, bound: Boundary, code: Code)
    requires 0 <= i < |gates| && ValidGate(gates[i]) && MemberCause(gates, i, bound, code)
    requires forall x, y :: 0 <= x < y < |gates| ==> gates[x].body.id != gates[y].body.id
    ensures !Fits(gates[i], bound) && Misfit(gates[i].body, bound) == code
  {
    hide Known, Positioned, Named, Evident, Undigested;
  }

  /** What sealing a known attempt answers and leaves. */
  ghost predicate SealedAs(l: Ledger, a: AttemptId, r: Result<(Ledger, Manifest)>)
    requires a in l.attempts && a.0 in l.generations && l.generations[a.0].seal.Some?
  {
    var g := l.generations[a.0];
    var bound := Boundary(a.0, g.frontier, g.schemaSet, 1);
    && (r.Ok? <==> StoredFit(l, a, bound) && StoredAll(l, a))
    && (r.Ok? ==> Sound(r.value.1, bound, g.seal.value.digest) && Holds(l, a, r.value.1)
                  && Binds(r.value.1, bound, g.seal.value.digest))
    && (r.Ok? ==> r.value.0 == l.(
          attempts := l.attempts[a := l.attempts[a].(closed := true)],
          generations := l.generations[a.0 := Generation(g.frontier, g.schemaSet, PROVEN, 2, g.seal, Some(r.value.1))]))
    && (r.Err? ==> if StoredFit(l, a, bound) then r.code == CB26G014_MISSING_GATE
                   else MisfitCause(l, a, bound, r.code))
  }

  /**
  Sealing an attempt, in every run.  It succeeds exactly if the attempt was begun, each of
  the eight gates is stored for it and every stored one passes and is of the attempt's
  boundary; then the generation is proven by the manifest of just these gates.  Else the
  code says that the attempt is unknown, what a stored gate has against it, or that one is
  missing.
  */
  lemma SealAttemptAnswer(ops: seq<Op>, a: AttemptId)
    ensures var l := Run(EMPTY, ops);
      var r := SealManifest(l, a);
      && (a !in l.attempts ==> r == Err(CB26C005_UNKNOWN_ATTEMPT))
      && (a in l.attempts ==> a.0 in l.generations && l.generations[a.0].seal.Some? && SealedAs(l, a, r))
  {
    hide Run, Sound, Holds, Assemble, AllCount, Complete, StoredFit, StoredAll, FirstFailing, MisfitCause, WellStored;
    hide GatesOf;
    var l := Run(EMPTY, ops);
    RunKeeps(EMPTY, ops);
    NoneStored();
    StoredAreValid(EMPTY, ops);
    if a in l.attempts {
      assert GenerationFits(l, a.0);
      var g := l.generations[a.0];
      var bound := BoundaryOf(l, l.attempts[a]);
      AssemblyAnswer(GatesOf(l, a), bound, g.seal.value.digest);
      ListedCount(l, a, bound);
      if SealManifest(l, a).Ok? {
        SealedIsSound(l, a);
      } else if !AllCount(GatesOf(l, a), bound) {
        FailingMisfits(l, a, bound, SealManifest(l, a).code);
      }
    }
  }

  lemma NoneStored()
    ensures WellStored(EMPTY)
  {
  }
}
