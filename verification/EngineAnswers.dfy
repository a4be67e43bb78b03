/**
What the engine answers to a batch, read off the history of accepted batches.
*/
module EngineAnswers {
  import opened Common
  import opened Engine
  import opened EngineFacts

  /** The generation takes batches. */
  predicate Takes(g: Generation) { g.status == CANDIDATE || g.status == READY }

  /** A batch of this id was accepted. */
  ghost predicate KnownId(batches: seq<CdcBatch>, id: string) { exists b :: b in batches && b.id == id }

  /** The batch's transactions rise strictly inside its interval. */
  predicate Inside(b: CdcBatch)
  {
    && (forall i :: 0 <= i < |b.transactions| ==> b.start < b.transactions[i].commitLsn <= b.end)
    && (forall i, j :: 0 <= i < j < |b.transactions| ==> b.transactions[i].commitLsn < b.transactions[j].commitLsn)
  }

  /** No transaction id is repeated, and none was applied before. */
  ghost predicate FreshIds(applied: seq<CdcTransaction>, b: CdcBatch)
  {
    && (forall i, j :: 0 <= i < j < |b.transactions| ==> b.transactions[i].id != b.transactions[j].id)
    && (forall t, u :: t in b.transactions && u in applied ==> t.id != u.id)
  }

  /** A batch that may newly be applied to a generation with this history. */
  ghost predicate Fits(g: Generation, h: History, b: CdcBatch)
  {
    b.start == g.currentLsn && Inside(b) && FreshIds(AllTransactions(h.batches), b)
  }

  lemma KnownIsStored(g: Generation, h: History, id: string)
    requires BatchesAre(g, h.batches)
    ensures KnownId(h.batches, id) <==> id in g.batches
  {
    if id in g.batches { assert g.batches[id] in h.batches; }
  }

  lemma StoredIsAccepted(g: Generation, h: History, b: CdcBatch)
    requires BatchesAre(g, h.batches) && b.id in g.batches
    ensures g.batches[b.id] == b <==> b in h.batches
  {
  }

  lemma FreshIsNew(g: Generation, h: History, b: CdcBatch)
    requires TransactionsAre(g, AllTransactions(h.batches))
    ensures NewIds(g, b.transactions) <==> FreshIds(AllTransactions(h.batches), b)
  {
    var applied := AllTransactions(h.batches);
    forall t | t in b.transactions ensures t.id in g.transactions <==> exists u :: u in applied && t.id == u.id {
      if t.id in g.transactions { assert g.transactions[t.id] in applied; }
    }
  }

  /** Why a batch is refused. */
  ghost function RefusalOf(g: Generation, h: History, b: CdcBatch): Code
  {
    if !Takes(g) then INVALID_GENERATION_STATE
    else if KnownId(h.batches, b.id) then REPLAY_CONFLICT
    else if b.start != g.currentLsn || !Inside(b) then FRONTIER_GAP
    else if !FreshIds(AllTransactions(h.batches), b) then REPLAY_CONFLICT
    else INJECTED_CRASH
  }

  /** The answer to a batch of a generation with this history. */
  ghost predicate AnswerIs(g: Generation, h: History, b: CdcBatch, crash: bool, r: Result<(Generation, bool)>)
  {
    && (r.Ok? && r.value.1 <==> Takes(g) && b in h.batches)
    && (r.Ok? && r.value.1 ==> r.value.0 == g)
    && (r.Ok? && !r.value.1 <==> Takes(g) && !KnownId(h.batches, b.id) && Fits(g, h, b) && !crash)
    && (r.Err? ==> r.code == RefusalOf(g, h, b))
  }

  lemma {:induction false} ApplyAnswers(g: Generation, h: History, b: CdcBatch, crash: bool)
    requires Faithful(g, h)
    ensures AnswerIs(g, h, b, crash, ApplyTo(g, b, crash))
  {
    hide AnswerIs, ApplyTo, RecordsFollow, Tiles;
    KnownIsStored(g, h, b.id);
    if b.id in g.batches { KnownAnswers(g, h, b, crash); } else { NewAnswers(g, h, b, crash); }
  }

  lemma KnownAnswers(g: Generation, h: History, b: CdcBatch, crash: bool)
    requires Faithful(g, h) && b.id in g.batches && KnownId(h.batches, b.id)
    ensures AnswerIs(g, h, b, crash, ApplyTo(g, b, crash))
  {
    hide RecordsFollow, Tiles, ApplyTransactions, FreshIds, KnownId, Inside, Ordered, TransactionsAre;
    StoredIsAccepted(g, h, b);
  }

  lemma NewAnswers(g: Generation, h: History, b: CdcBatch, crash: bool)
    requires Faithful(g, h) && b.id !in g.batches && !KnownId(h.batches, b.id)
    ensures AnswerIs(g, h, b, crash, ApplyTo(g, b, crash))
  {
    hide RecordsFollow, Tiles, ApplyTransactions, NewIds, FreshIds;
    FreshIsNew(g, h, b);
    OrderedMeans(b.start, b.transactions, b.end);
    AppliedBelow(g, h.snapshot, AllTransactions(h.batches), g.currentLsn);
    if b.start == g.currentLsn && Ordered(b.start, b.transactions, b.end) {
      AppliedIffNew(g, g.currentLsn, b.transactions, b.end);
    }
  }

  /**
  The answer to a batch, after every run.  A generation that takes batches answers
  "replayed" exactly to a batch among its accepted ones, and then nothing changes; other
  content under an accepted id is REPLAY_CONFLICT; a new batch is applied exactly if it
  starts at the frontier, is ordered inside its interval and brings fresh transactions;
  and whatever is refused changes nothing.
  */
  lemma {:induction false} BatchAnswer(ops: seq<Op>, gen: string, b: CdcBatch, crash: bool)
    ensures var (s, log) := Run(ops);
      var r := ApplyBatch(s, gen, b, crash);
      && (gen !in s.generations ==> r == Err(KEY_ERROR))
      && (gen in s.generations ==>
            && gen in log.histories
            && var g, h := s.generations[gen], log.histories[gen];
            && (r.Ok? && r.value.1 <==> Takes(g) && b in h.batches)
            && (r.Ok? && r.value.1 ==> r.value.0 == s)
            && (Takes(g) && KnownId(h.batches, b.id) && b !in h.batches ==> r == Err(REPLAY_CONFLICT))
            && (r.Ok? && !r.value.1 <==> Takes(g) && !KnownId(h.batches, b.id) && Fits(g, h, b) && !crash)
            && (r.Err? ==> r.code == RefusalOf(g, h, b)))
      && (r.Err? ==> Step(s, Batch(gen, b, crash)) == s)
  {
    hide Run, ApplyTo, Faithful, Fits, Inside, FreshIds, PointerFollows;
    RunKeeps(ops);
    var (s, log) := Run(ops);
    if gen in s.generations {
      assert Faithful(s.generations[gen], log.histories[gen]);
      ApplyAnswers(s.generations[gen], log.histories[gen], b, crash);
    }
  }

  /**
  The other calls, after every run: creating succeeds exactly for a new name at a
  position from zero on, loading exactly for a generation still loading, readying exactly
  for a candidate, and activating exactly for a ready generation under the number of
  activations so far.
  */
  lemma {:induction false} CallAnswers(ops: seq<Op>, gen: string, lsn: int, schema: string, tables: Tables,
                                       expected: int)
    ensures var (s, log) := Run(ops);
      var created, loaded := CreateGeneration(s, gen, lsn, schema), LoadSnapshot(s, gen, tables);
      var readied, activated := MarkReady(s, gen), Activate(s, gen, expected);
      && (created.Ok? <==> lsn >= 0 && gen !in s.generations)
      && (created.Err? ==> created.code == if lsn < 0 then VALUE_ERROR else INTEGRITY_ERROR)
      && (loaded.Ok? <==> gen in s.generations && s.generations[gen].status == LOADING)
      && (loaded.Err? ==> loaded.code == if gen in s.generations then INVALID_GENERATION_STATE else KEY_ERROR)
      && (readied.Ok? <==> gen in s.generations && s.generations[gen].status == CANDIDATE)
      && (readied.Err? ==> readied.code == if gen in s.generations then INVALID_GENERATION_STATE else KEY_ERROR)
      && (activated.Ok? <==>
            gen in s.generations && s.generations[gen].status == READY && expected == |log.activations|)
      && (activated.Err? ==>
            activated.code == if gen !in s.generations then KEY_ERROR
                              else if s.generations[gen].status != READY then INVALID_GENERATION_STATE
                              else COMPARE_AND_SWAP_CONFLICT)
  {
    hide Run, Tiles, BatchesAre, TransactionsAre, Ordered;
    RunKeeps(ops);
    var (s, log) := Run(ops);
    if gen in s.generations && s.generations[gen].status == LOADING {
      LoadingIsEmpty(s.generations[gen], log.histories[gen]);
    }
  }

  /** A generation still loading has no rows. */
  lemma LoadingIsEmpty(g: Generation, h: History)
    requires Faithful(g, h) && g.status == LOADING
    ensures g.records == map[]
  {
    assert AllTransactions([]) == [];
    forall place ensures place !in g.records { assert Find(g.records, place) == None; }
  }

  /** What each call that succeeds leaves, generation by generation. */
  lemma CallEffects(s: State, gen: string, lsn: int, schema: string, tables: Tables, expected: int, other: string)
    ensures CreateGeneration(s, gen, lsn, schema).Ok? ==>
      var s' := CreateGeneration(s, gen, lsn, schema).value;
      && gen in s'.generations && StateOf(s'.generations[gen]) == map[] && Tombstones(s'.generations[gen]) == map[]
      && s'.generations[gen].status == LOADING && s'.generations[gen].schema == schema
      && s'.generations[gen].snapshotLsn == s'.generations[gen].currentLsn == lsn
      && s'.active == s.active && s'.version == s.version
      && (other in s.generations ==> other in s'.generations && s'.generations[other] == s.generations[other])
    ensures LoadSnapshot(s, gen, tables).Ok? ==>
      var s' := LoadSnapshot(s, gen, tables).value;
      && gen in s'.generations && StateOf(s'.generations[gen]) == tables && s'.generations[gen].status == CANDIDATE
      && s'.generations[gen].currentLsn == s.generations[gen].currentLsn && s'.version == s.version
      && (other in s.generations && other != gen ==>
            other in s'.generations && s'.generations[other] == s.generations[other])
    ensures MarkReady(s, gen).Ok? ==>
      var s' := MarkReady(s, gen).value;
      && gen in s'.generations && s'.generations[gen].status == READY
      && s'.version == s.version && s'.active == s.active
      && StateOf(s'.generations[gen]) == StateOf(s.generations[gen])
      && (other in s.generations && other != gen ==>
            other in s'.generations && s'.generations[other] == s.generations[other])
    ensures Activate(s, gen, expected).Ok? ==>
      var s' := Activate(s, gen, expected).value;
      s'.active == Some(gen) && s'.version == expected + 1 && s'.generations == s.generations
  {
  }
}
