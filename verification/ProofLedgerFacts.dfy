/**
What every run of the proof ledger keeps: a PROVEN generation's manifest holds the eight
gates, never changes again, and is one that publication accepts.
*/
module ProofLedgerFacts {
  import opened Common
  import opened Sorting
  import opened ProofLedger

  datatype Op =
    | RegisterOp(gen: string, frontier: string, schemaSet: string)
    | SealOp(gen: string, seal: Seal)
    | BeginOp(gen: string)
    | GateOp(attempt: AttemptId, gate: Gate)
    | ManifestOp(attempt: AttemptId)

  ghost function Step(l: Ledger, op: Op): Ledger
  {
    match op
    case RegisterOp(gen, frontier, schemaSet) => RegisterCandidate(l, gen, frontier, schemaSet)
    case SealOp(gen, seal) => (match SealGeneration(l, gen, seal) case Ok(l') => l' case Err(_) => l)
    case BeginOp(gen) => (match BeginProof(l, gen) case Ok((l', _)) => l' case Err(_) => l)
    case GateOp(a, g) => (match RecordGate(l, a, g) case Ok(l') => l' case Err(_) => l)
    case ManifestOp(a) => (match SealManifest(l, a) case Ok((l', _)) => l' case Err(_) => l)
  }

  ghost function Run(l: Ledger, ops: seq<Op>): Ledger
    decreases |ops|
  {
    if ops == [] then l else Run(Step(l, ops[0]), ops[1..])
  }

  /** The gate passes and is bound to the boundary. */
  ghost predicate Bound(g: Gate, b: Boundary)
  {
    && GateFault(g) == None && g.body.verdict == "PASS" && g.body.gen == b.gen && g.body.frontier == b.frontier
    && g.body.schemaSet == b.schemaSet && g.body.inputRevision == b.inputRevision
  }

  /** The eight gates in order, each passing and bound; the digest is that of the body. */
  ghost predicate Sound(m: Manifest, b: Boundary, sealDigest: string)
  {
    && IdsOf(m.body.gates) == REQUIRED && (forall g :: g in m.body.gates ==> Bound(g, b))
    && m.body == BodyOf(b, sealDigest, m.body.gates) && m.digest == m.body
  }

  lemma {:induction false} CollectMeans(gates: seq<Gate>, byId: map<string, Gate>, b: Boundary)
    requires Collect(gates, byId, b).Ok?
    ensures var r := Collect(gates, byId, b).value;
            && (forall g :: g in gates ==> g.body.id in r && r[g.body.id] == g && Bound(g, b))
            && (forall id :: id in byId ==> id in r && r[id] == byId[id])
            && (forall id :: id in r && id !in byId ==> r[id] in gates && r[id].body.id == id)
    decreases |gates|
  {
    if gates != [] {
      assert gates == [gates[0]] + gates[1..];
      CollectMeans(gates[1..], byId[gates[0].body.id := gates[0]], b);
    }
  }

  /** Passing, bound gates with distinct ids are collected without fault. */
  lemma {:induction false} CollectSucceeds(gates: seq<Gate>, byId: map<string, Gate>, b: Boundary)
    requires forall g :: g in gates ==> Bound(g, b) && g.body.id !in byId
    requires forall i, j :: 0 <= i < j < |gates| ==> gates[i].body.id != gates[j].body.id
    ensures Collect(gates, byId, b).Ok?
    decreases |gates|
  {
    if gates != [] {
      assert gates[0] in gates;
      var tail := gates[1..];
      forall g | g in tail ensures g.body.id != gates[0].body.id && Bound(g, b) && g.body.id !in byId {
        var k :| 0 <= k < |tail| && tail[k] == g;
        assert gates[k + 1] == g;
      }
      assert forall i :: 0 <= i < |tail| ==> tail[i] == gates[i + 1];
      CollectSucceeds(tail, byId[gates[0].body.id := gates[0]], b);
    }
  }

  lemma AssembledIsSound(gates: seq<Gate>, b: Boundary, sealDigest: string)
    requires Assemble(gates, b, sealDigest).Ok?
    ensures Sound(Assemble(gates, b, sealDigest).value, b, sealDigest)
    ensures forall g :: g in Assemble(gates, b, sealDigest).value.body.gates ==> g in gates
  {
    CollectMeans(gates, map[], b);
    var byId := Collect(gates, map[], b).value;
    var m := Assemble(gates, b, sealDigest).value;
    forall i | 0 <= i < |REQUIRED| ensures m.body.gates[i].body.id == REQUIRED[i] && m.body.gates[i] in gates {
      assert REQUIRED[i] in REQUIRED && REQUIRED[i] in byId;
    }
    assert IdsOf(m.body.gates) == REQUIRED;
  }

  lemma RequiredDistinct()
    ensures Distinct(REQUIRED)
  {
  }

  lemma {:induction false} NoFaults(gates: seq<Gate>)
    requires forall g :: g in gates ==> GateFault(g) == None
    ensures GateFaults(gates) == None
    decreases |gates|
  {
    if gates != [] { NoFaults(gates[1..]); }
  }

  /** Publication accepts exactly the sound manifests. */
  lemma AcceptedIffSound(m: Manifest)
    ensures ManifestFault(m) == None <==>
              Sound(m, Boundary(m.body.gen, m.body.frontier, m.body.schemaSet, m.body.inputRevision), m.body.sealDigest)
  {
    hide BodyOf, Collect, Distinct, GateFault, GateFaults;
    var b := Boundary(m.body.gen, m.body.frontier, m.body.schemaSet, m.body.inputRevision);
    var gates := m.body.gates;
    if ManifestFault(m) == None {
      AssembledIsSound(gates, b, m.body.sealDigest);
    }
    if Sound(m, b, m.body.sealDigest) {
      NoFaults(gates);
      RequiredDistinct();
      forall i, j | 0 <= i < j < |gates| ensures gates[i].body.id != gates[j].body.id {
        assert IdsOf(gates)[i] != IdsOf(gates)[j];
      }
      CollectSucceeds(gates, map[], b);
      CollectMeans(gates, map[], b);
      var byId := Collect(gates, map[], b).value;
      forall i | 0 <= i < |REQUIRED| ensures REQUIRED[i] in byId && byId[REQUIRED[i]] == gates[i] {
        assert IdsOf(gates)[i] == REQUIRED[i] && gates[i] in gates;
      }
      assert InOrder(byId) == gates;
    }
  }

  /** The attempt holds the manifest's gates and no others. */
  ghost predicate Holds(l: Ledger, a: AttemptId, m: Manifest)
  {
    && (forall g :: g in m.body.gates ==> (a, g.body.id) in l.gates && l.gates[(a, g.body.id)] == g)
  }

  ghost predicate GenerationFits(l: Ledger, gen: string)
    requires gen in l.generations
  {
    var g := l.generations[gen];
    match g.state
    case CDC_APPLYING => g.revision == 0 && g.seal == None && g.manifest == None && (gen, 1) !in l.attempts
    case SEALED => g.revision == 1 && g.seal.Some? && g.manifest == None && (gen, 1) !in l.attempts
    case PROVING => g.revision == 1 && g.seal.Some? && g.manifest == None && (gen, 1) in l.attempts
    case PROVEN =>
      && g.revision == 2 && g.seal.Some? && g.manifest.Some? && (gen, 1) in l.attempts
      && Sound(g.manifest.value, Boundary(gen, g.frontier, g.schemaSet, 1), g.seal.value.digest)
      && Holds(l, (gen, 1), g.manifest.value)
  }

  ghost predicate Inv(l: Ledger)
  {
    && (forall gen :: gen in l.generations ==> GenerationFits(l, gen))
    && (forall a :: a in l.attempts ==>
            a == (l.attempts[a].gen, 1) && l.attempts[a].inputRevision == 1 && a.0 in l.generations)
    && (forall k :: k in l.gates ==> l.gates[k].body.id == k.1 && k.1 in REQUIRED)
  }

  lemma GatesAreStored(l: Ledger, a: AttemptId)
    ensures forall g :: g in GatesOf(l, a) ==> exists k :: k in l.gates && k.0 == a && l.gates[k] == g
  {
    var ids := Listing(GateIds(l, a));
    forall g | g in GatesOf(l, a) ensures exists k :: k in l.gates && k.0 == a && l.gates[k] == g {
      var i :| 0 <= i < |ids| && GatesOf(l, a)[i] == g;
      assert ids[i] in ids && (a, ids[i]) in l.gates;
    }
  }

  /** Sealing an attempt, again or for the first time. */
  lemma SealedIsSound(l: Ledger, a: AttemptId)
    requires Inv(l) && SealManifest(l, a).Ok?
    ensures var g, m := l.generations[a.0], SealManifest(l, a).value.1;
            && a == (a.0, 1) && g.seal.Some? && Sound(m, Boundary(a.0, g.frontier, g.schemaSet, 1), g.seal.value.digest)
            && Holds(l, a, m)
  {
    var g, m := l.generations[a.0], SealManifest(l, a).value.1;
    assert GenerationFits(l, a.0);
    AssembledIsSound(GatesOf(l, a), BoundaryOf(l, l.attempts[a]), g.seal.value.digest);
    GatesAreStored(l, a);
    forall x | x in m.body.gates ensures (a, x.body.id) in l.gates && l.gates[(a, x.body.id)] == x {
      var k :| k in l.gates && k.0 == a && l.gates[k] == x;
    }
  }

  /** A manifest is determined by the attempt's gates, the boundary and the seal. */
  lemma SoundIsUnique(l: Ledger, a: AttemptId, m: Manifest, n: Manifest, b: Boundary, sealDigest: string)
    requires Sound(m, b, sealDigest) && Sound(n, b, sealDigest) && Holds(l, a, m) && Holds(l, a, n)
    ensures m == n
  {
    forall i | 0 <= i < |REQUIRED| ensures m.body.gates[i] == n.body.gates[i] {
      assert IdsOf(m.body.gates)[i] == IdsOf(n.body.gates)[i];
      assert m.body.gates[i] in m.body.gates && n.body.gates[i] in n.body.gates;
    }
    assert |m.body.gates| == |IdsOf(m.body.gates)| == |n.body.gates|;
    assert m.body.gates == n.body.gates;
  }

  /** Nothing about a proven generation ever changes: a second sealing finds the same manifest. */
  ghost predicate Settled(l: Ledger, l': Ledger)
  {
    forall gen :: gen in l.generations && l.generations[gen].state == PROVEN ==>
      gen in l'.generations && l'.generations[gen] == l.generations[gen]
  }

  lemma SealedFits(l: Ledger, a: AttemptId)
    requires Inv(l) && SealManifest(l, a).Ok?
    ensures var l' := Step(l, ManifestOp(a));
            && GenerationFits(l', a.0)
            && (l.generations[a.0].state == PROVEN ==> l'.generations[a.0] == l.generations[a.0])
  {
    hide Sound, Holds;
    var g, m := l.generations[a.0], SealManifest(l, a).value.1;
    SealedIsSound(l, a);
    assert GenerationFits(l, a.0);
    if g.state == PROVEN {
      SoundIsUnique(l, a, m, g.manifest.value, Boundary(a.0, g.frontier, g.schemaSet, 1), g.seal.value.digest);
    }
    HoldsStays(l, Step(l, ManifestOp(a)), a, m);
  }

  lemma HoldsStays(l: Ledger, l': Ledger, a: AttemptId, m: Manifest)
    requires l'.gates == l.gates
    ensures Holds(l, a, m) <==> Holds(l', a, m)
  {
  }

  lemma ManifestKeeps(l: Ledger, a: AttemptId)
    requires Inv(l)
    ensures Inv(Step(l, ManifestOp(a))) && Settled(l, Step(l, ManifestOp(a)))
  {
    hide GenerationFits, Assemble;
    if SealManifest(l, a).Ok? {
      SealedFits(l, a);
      var l' := Step(l, ManifestOp(a));
      forall gen | gen in l'.generations ensures GenerationFits(l', gen) {
        if gen != a.0 { FitStays(l, l', gen); }
      }
    }
  }

  lemma GateKeeps(l: Ledger, a: AttemptId, g: Gate)
    requires Inv(l)
    ensures Inv(Step(l, GateOp(a, g))) && Settled(l, Step(l, GateOp(a, g)))
  {
    hide GenerationFits;
    var l' := Step(l, GateOp(a, g));
    forall gen | gen in l'.generations ensures GenerationFits(l', gen) { GateFits(l, a, g, gen); }
  }

  /** A gate is stored only while its generation is not yet proven. */
  lemma GateFits(l: Ledger, a: AttemptId, g: Gate, gen: string)
    requires gen in l.generations && GenerationFits(l, gen) && (a in l.attempts ==> a == (l.attempts[a].gen, 1))
    ensures GenerationFits(Step(l, GateOp(a, g)), gen)
  {
    hide Sound, GateFault, IdsOf;
  }

  /** A generation that did not change fits as before, when gates and attempts of others only grew. */
  lemma FitStays(l: Ledger, l': Ledger, gen: string)
    requires gen in l.generations && GenerationFits(l, gen)
    requires gen in l'.generations && l'.generations[gen] == l.generations[gen]
    requires (gen, 1) in l'.attempts <==> (gen, 1) in l.attempts
    requires l'.gates == l.gates
    ensures GenerationFits(l', gen)
  {
    hide Sound;
  }

  lemma RegisterKeeps(l: Ledger, gen: string, frontier: string, schemaSet: string)
    requires Inv(l)
    ensures Inv(Step(l, RegisterOp(gen, frontier, schemaSet)))
    ensures Settled(l, Step(l, RegisterOp(gen, frontier, schemaSet)))
  {
    hide BeginProof, Holds, RecordGate, SealGeneration, SealManifest, Sound;
    var l' := Step(l, RegisterOp(gen, frontier, schemaSet));
    forall other | other in l'.generations ensures GenerationFits(l', other) {
      if other in l.generations { FitStays(l, l', other); }
    }
  }

  lemma SealKeeps(l: Ledger, gen: string, seal: Seal)
    requires Inv(l)
    ensures Inv(Step(l, SealOp(gen, seal))) && Settled(l, Step(l, SealOp(gen, seal)))
  {
    hide Holds, RecordGate, SealManifest, Sound;
    var l' := Step(l, SealOp(gen, seal));
    forall other | other in l'.generations ensures GenerationFits(l', other) {
      assert GenerationFits(l, other);
      if other != gen { FitStays(l, l', other); }
    }
  }

  lemma BeginKeeps(l: Ledger, gen: string)
    requires Inv(l)
    ensures Inv(Step(l, BeginOp(gen))) && Settled(l, Step(l, BeginOp(gen)))
  {
    hide Sound, Holds;
    var l' := Step(l, BeginOp(gen));
    if BeginProof(l, gen).Ok? { assert GenerationFits(l, gen); }
    forall other | other in l'.generations ensures GenerationFits(l', other) {
      assert GenerationFits(l, other);
      if other != gen { FitStays(l, l', other); }
    }
  }

  lemma StepKeeps(l: Ledger, op: Op)
    requires Inv(l)
    ensures Inv(Step(l, op)) && Settled(l, Step(l, op))
  {
    hide Inv, Settled, Step;
    match op
    case RegisterOp(gen, frontier, schemaSet) => RegisterKeeps(l, gen, frontier, schemaSet);
    case SealOp(gen, seal) => SealKeeps(l, gen, seal);
    case BeginOp(gen) => BeginKeeps(l, gen);
    case GateOp(a, g) => GateKeeps(l, a, g);
    case ManifestOp(a) => ManifestKeeps(l, a);
  }

  lemma {:induction false} RunKeeps(l: Ledger, ops: seq<Op>)
    requires Inv(l)
    ensures Inv(Run(l, ops)) && Settled(l, Run(l, ops))
    decreases |ops|
  {
    hide Inv, Step;
    if ops != [] {
      StepKeeps(l, ops[0]);
      RunKeeps(Step(l, ops[0]), ops[1..]);
    }
  }

  /**
  In every run a proven generation's manifest holds all eight gates in order, each
  passing and bound to the generation, its frontier, schema set, input revision and
  seal; publication accepts it; and no later run changes it.
  */
  lemma ProvenIsStable(ops: seq<Op>, more: seq<Op>, gen: string)
    requires gen in Run(EMPTY, ops).generations && Run(EMPTY, ops).generations[gen].state == PROVEN
    ensures var g := Run(EMPTY, ops).generations[gen];
            && g.seal.Some? && g.manifest.Some?
            && Sound(g.manifest.value, Boundary(gen, g.frontier, g.schemaSet, 1), g.seal.value.digest)
            && ManifestFault(g.manifest.value) == None
            && gen in Run(Run(EMPTY, ops), more).generations
            && Run(Run(EMPTY, ops), more).generations[gen] == g
  {
    hide Run, ManifestFault;
    var l := Run(EMPTY, ops);
    RunKeeps(EMPTY, ops);
    assert GenerationFits(l, gen);
    AcceptedIffSound(l.generations[gen].manifest.value);
    RunKeeps(l, more);
  }

  /** The seal and the generation of an attempt are always there when it is sealed. */
  lemma NoAssertionFails(ops: seq<Op>, a: AttemptId)
    ensures SealManifest(Run(EMPTY, ops), a) != Err(ASSERTION_ERROR)
  {
    hide Run, Sound;
    var l := Run(EMPTY, ops);
    RunKeeps(EMPTY, ops);
    if a in l.attempts {
      assert GenerationFits(l, a.0);
      if SealManifest(l, a).Err? { AssemblyNeverAsserts(GatesOf(l, a), map[], BoundaryOf(l, l.attempts[a])); }
    }
  }

  lemma {:induction false} AssemblyNeverAsserts(gates: seq<Gate>, byId: map<string, Gate>, b: Boundary)
    ensures Collect(gates, byId, b) != Err(ASSERTION_ERROR)
    decreases |gates|
  {
    if gates != [] && MemberFault(gates[0], byId.Keys, b) == None {
      AssemblyNeverAsserts(gates[1..], byId[gates[0].body.id := gates[0]], b);
    }
  }
}
