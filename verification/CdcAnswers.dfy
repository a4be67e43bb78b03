/**
What the calls of the control store and of the target adapter answer: exactly when each
succeeds, what it leaves, and the cause of every refusal.
*/
module CdcAnswers {
  import opened Common
  import opened Sorting
  import opened Events
  import opened CdcControl
  import Ref = ReferenceCdc
  import T = IcebergCdc

  /** Checkpoints start once: at another frontier only a checkpoint that has moved is found. */
  lemma CheckpointIff(c: Control, gen: string, frontier: string)
    ensures var r, found := InitializeCheckpoint(c, gen, frontier), gen in c.checkpoints;
      && (r.Ok? <==> (found && c.checkpoints[gen].revision == 0 ==> c.checkpoints[gen].frontier == frontier))
      && (r.Ok? ==> r.control == c.(checkpoints := r.control.checkpoints)
                    && r.control.checkpoints.Keys == c.checkpoints.Keys + {gen}
                    && (forall g :: g in c.checkpoints ==> r.control.checkpoints[g] == c.checkpoints[g])
                    && (!found ==> r.control.checkpoints[gen] == Checkpoint(frontier, 0, None)))
      && (r.Err? ==> r.code == CB24C001_CHECKPOINT_CONFLICT)
  {
  }

  /** What a claim stores of a plan. */
  predicate Claims(t: Transaction, plan: Plan)
  {
    && t.digest == plan.digest && t.commitLsn == plan.commitLsn
    && t.manifest == plan.manifest && t.tables == plan.tables
    && t.state == APPLYING
  }

  /** A transaction is claimed once: its id is free or stands for the same digest. */
  lemma ClaimIff(c: Control, plan: Plan)
    ensures var r, id := Claim(c, plan), (plan.gen, plan.tx);
      && (r.Ok? <==> (id in c.transactions ==> c.transactions[id].digest == plan.digest))
      && (r.Ok? && id in c.transactions ==> r.control == c)
      && (r.Ok? && id !in c.transactions ==>
            && r.control == c.(transactions := r.control.transactions)
            && r.control.transactions.Keys == c.transactions.Keys + {id} && Claims(r.control.transactions[id], plan)
            && forall other :: other in c.transactions ==> r.control.transactions[other] == c.transactions[other])
      && (r.Err? ==> r.code == CB24C002_TRANSACTION_REPLAY_CONFLICT)
  {
  }

  /** Another receipt of the generation has the token. */
  ghost predicate TokenUsed(c: Control, gen: string, token: Digest)
  {
    exists tx, table :: (gen, tx, table) in c.receipts && c.receipts[(gen, tx, table)].token == token
  }

  /** A receipt is stored once, and no two of a generation have one token. */
  lemma ReceiptIff(c: Control, id: ReceiptId, receipt: Receipt)
    ensures var r, found := RecordReceipt(c, id, receipt), id in c.receipts;
      && (r.Ok? <==> if found then c.receipts[id] == receipt else !TokenUsed(c, id.0, receipt.token))
      && (r.Ok? && found ==> r.control == c)
      && (r.Ok? && !found ==> r.control == c.(receipts := c.receipts[id := receipt]))
      && (r.Err? ==> r.code == CB24C004_RECEIPT_CONFLICT)
  {
    if TokenTaken(c, id.0, receipt.token) {
      var other :| other in c.receipts && other.0 == id.0 && c.receipts[other].token == receipt.token;
      assert other == (id.0, other.1, other.2);
    }
  }

  /** Receipts stored one by one never share a token within a generation. */
  ghost predicate TokensDiffer(c: Control)
  {
    forall a, b :: a in c.receipts && b in c.receipts && a.0 == b.0 && a != b ==>
      c.receipts[a].token != c.receipts[b].token
  }

  lemma ReceiptKeepsTokens(c: Control, id: ReceiptId, receipt: Receipt)
    requires TokensDiffer(c) && RecordReceipt(c, id, receipt).Ok?
    ensures TokensDiffer(RecordReceipt(c, id, receipt).control)
  {
  }

  /** The first delete of this id among the events. */
  ghost predicate FirstDelete(events: seq<Event>, id: string, i: int)
  {
    && 0 <= i < |events| && events[i].id == id && events[i].change.Delete?
    && forall j :: 0 <= j < i ==> events[j].id != id || !events[j].change.Delete?
  }

  /** The tombstone says what was deleted, by which transaction and commit. */
  predicate Marks(t: Tombstone, plan: Plan, e: Event, token: Digest)
    requires e.change.Delete?
  {
    && t.tx == plan.tx && t.table == e.table && t.key == e.key && t.position == e.position
    && t.before == BeforeImage(e.table, e.change.before) && t.token == token
  }

  /** Each delete leaves one tombstone; those there before stay, and no other comes. */
  lemma {:induction false} BuryMeans(t: map<TxId, Tombstone>, plan: Plan, events: seq<Event>,
                                     tokens: map<string, Digest>, id: TxId)
    requires forall e :: e in events && e.change.Delete? ==> e.table in tokens
    ensures var t' := Bury(t, plan, events, tokens);
      && (id in t ==> id in t' && t'[id] == t[id])
      && (id !in t ==> (id in t' <==> id.0 == plan.gen && exists i :: FirstDelete(events, id.1, i)))
      && (id !in t ==> forall i :: id.0 == plan.gen && FirstDelete(events, id.1, i) ==>
            id in t' && Marks(t'[id], plan, events[i], tokens[events[i].table]))
  {
    if events != [] {
      var n := |events| - 1;
      var front, last := events[..n], events[n];
      assert forall j :: 0 <= j < n ==> front[j] == events[j];
      assert last in events;
      BuryMeans(t, plan, front, tokens, id);
      forall i ensures FirstDelete(events, id.1, i) <==>
                       FirstDelete(front, id.1, i) || (i == n && last.id == id.1 && last.change.Delete?
                                                       && forall j :: !FirstDelete(front, id.1, j))
      {
        DeleteSplits(events, id.1, i);
      }
      if last.id == id.1 && last.change.Delete? && forall j :: !FirstDelete(front, id.1, j) {
        assert FirstDelete(events, id.1, n);
      }
      if i :| FirstDelete(front, id.1, i) { assert FirstDelete(events, id.1, i); }
    }
  }

  lemma DeleteSplits(events: seq<Event>, id: string, i: int)
    requires events != []
    ensures var n := |events| - 1;
      FirstDelete(events, id, i) <==>
        || FirstDelete(events[..n], id, i)
        || (i == n && events[n].id == id && events[n].change.Delete? && forall j :: !FirstDelete(events[..n], id, j))
  {
    var n := |events| - 1;
    var front := events[..n];
    assert forall j :: 0 <= j < n ==> front[j] == events[j];
    if i == n && events[n].id == id && events[n].change.Delete? && !FirstDelete(events, id, n) {
      HasFirstDelete(front, id);
    }
  }

  lemma {:induction false} HasFirstDelete(events: seq<Event>, id: string)
    ensures (exists i :: FirstDelete(events, id, i)) || forall e :: e in events ==> e.id != id || !e.change.Delete?
  {
    if events != [] {
      var n := |events| - 1;
      var front := events[..n];
      assert events == front + [events[n]];
      HasFirstDelete(front, id);
      if i :| FirstDelete(front, id, i) {
        assert forall j :: 0 <= j < n ==> front[j] == events[j];
        assert FirstDelete(events, id, i);
      } else if events[n].id == id && events[n].change.Delete? {
        assert forall j :: 0 <= j < n ==> events[j] == front[j] && front[j] in front;
        assert FirstDelete(events, id, n);
      }
    }
  }

  /** The transaction has a receipt for each of the plan's tables and for no other. */
  ghost predicate ReceiptsComplete(c: Control, plan: Plan)
  {
    && Sorted(plan.tables, Chars) && Distinct(plan.tables)
    && forall table :: table in plan.tables <==> (plan.gen, plan.tx, table) in c.receipts
  }

  lemma ReceiptsMean(c: Control, plan: Plan)
    ensures Lists(plan.tables, ReceiptTables(c, IdOf(plan))) <==> ReceiptsComplete(c, plan)
  {
    forall table ensures table in ReceiptTables(c, IdOf(plan)) <==> (plan.gen, plan.tx, table) in c.receipts {
      if (plan.gen, plan.tx, table) in c.receipts {
        var r: ReceiptId := (plan.gen, plan.tx, table);
        assert r in c.receipts && (r.0, r.1) == IdOf(plan) && r.2 == table;
      }
    }
    forall table ensures table in Elements(plan.tables) <==> table in plan.tables {}
    if ReceiptsComplete(c, plan) {
      assert Elements(plan.tables) == ReceiptTables(c, IdOf(plan));
    }
  }

  /** The checkpoint is where the plan expects it. */
  predicate Expected(c: Control, plan: Plan, expected: nat)
  {
    && plan.gen in c.checkpoints && c.checkpoints[plan.gen].revision == expected
    && c.checkpoints[plan.gen].frontier == plan.previousFrontier
  }

  /** Why a transaction is not finalized. */
  ghost function FinalRefusal(c: Control, plan: Plan, expected: nat): Code
  {
    var id := (plan.gen, plan.tx);
    if id !in c.transactions || c.transactions[id].state.CHECKPOINTED? then ASSERTION_ERROR
    else if !ReceiptsComplete(c, plan) then CB24C005_RECEIPTS_INCOMPLETE
    else if plan.gen !in c.checkpoints then CB24C006_CHECKPOINT_MISSING
    else if c.checkpoints[plan.gen].revision != expected then CB24C007_STALE_CHECKPOINT
    else CB24C008_FRONTIER_MISMATCH
  }

  /**
  Finalizing.  It succeeds exactly for a transaction checkpointed before, or for one with
  its receipts complete and the checkpoint where the plan expects it; then the
  checkpoint moves to the plan's commit position, one revision on, and names it.
  */
  lemma FinalizeIff(c: Control, plan: Plan, expected: nat)
    ensures var r, id := Finalize(c, plan, expected), (plan.gen, plan.tx);
      var known := id in c.transactions;
      var done := known && c.transactions[id].state.CHECKPOINTED?;
      && (r.Ok? <==> known && if done then plan.gen in c.checkpoints
                              else ReceiptsComplete(c, plan) && Expected(c, plan, expected))
      && (r.Ok? && done ==> r.control == c)
      && (r.Ok? && !done ==>
            && r.control == c.(checkpoints := r.control.checkpoints, transactions := r.control.transactions)
            && r.control.checkpoints == c.checkpoints[plan.gen :=
                 Checkpoint(plan.commitLsn, expected + 1, Some((plan.tx, plan.digest)))]
            && r.control.transactions.Keys == c.transactions.Keys
            && r.control.transactions[id] == c.transactions[id].(state := CHECKPOINTED)
            && forall other :: other in c.transactions && other != id ==>
                 r.control.transactions[other] == c.transactions[other])
      && (r.Err? ==> r.code == FinalRefusal(c, plan, expected))
  {
    hide Lists, ReceiptTables, ReceiptsComplete;
    ReceiptsMean(c, plan);
  }

  /** The event fits the table's rows: no row to insert at, else just its before image. */
  predicate Meets(rows: T.Bag, e: Event)
  {
    match e.change
    case Insert(_) => T.At(rows, e.key) == []
    case Update(before, _) => T.At(rows, e.key) == [before]
    case Delete(before) => T.At(rows, e.key) == [before]
  }

  /** Why an event does not fit. */
  predicate MissCause(rows: T.Bag, e: Event, code: T.Code)
  {
    var n := |T.At(rows, e.key)|;
    match code
    case CB24I001_MULTI_ROW_EFFECT => n >= 2
    case CB24I002_DUPLICATE_INSERT => n == 1 && e.change.Insert?
    case CB24I003_TARGET_ROW_MISSING => n == 0 && !e.change.Insert?
    case CB24I005_TARGET_BEFORE_IMAGE_MISMATCH => n == 1 && !e.change.Insert? && !Meets(rows, e)
    case _ => false
  }

  lemma EventMeans(rows: T.Bag, e: Event)
    ensures T.CheckEvent(rows, e) == None <==> Meets(rows, e)
    ensures T.CheckEvent(rows, e).Some? ==> MissCause(rows, e, T.CheckEvent(rows, e).value)
  {
    var at := T.At(rows, e.key);
    if |at| == 1 { assert at == [at[0]]; }
  }

  /** The first event that does not fit says why. */
  ghost predicate FirstMiss(rows: T.Bag, events: seq<Event>, code: T.Code)
  {
    exists i :: 0 <= i < |events| && MissCause(rows, events[i], code)
                && forall j :: 0 <= j < i ==> Meets(rows, events[j])
  }

  lemma {:induction false} ChecksMean(rows: T.Bag, events: seq<Event>)
    ensures T.CheckPreconditions(rows, events) == None <==> forall e :: e in events ==> Meets(rows, e)
    ensures T.CheckPreconditions(rows, events).Some? ==>
      FirstMiss(rows, events, T.CheckPreconditions(rows, events).value)
  {
    hide T.CheckEvent, Meets, MissCause;
    forall e: Event ensures T.CheckEvent(rows, e) == None <==> Meets(rows, e) { EventMeans(rows, e); }
    if events != [] {
      EventMeans(rows, events[0]);
      ChecksMean(rows, events[1..]);
      if T.CheckEvent(rows, events[0]) == None && T.CheckPreconditions(rows, events).Some? {
        MissLater(rows, events, T.CheckPreconditions(rows, events).value);
      }
    }
  }

  lemma MissLater(rows: T.Bag, events: seq<Event>, code: T.Code)
    requires events != [] && Meets(rows, events[0]) && FirstMiss(rows, events[1..], code)
    ensures FirstMiss(rows, events, code)
  {
    hide Meets, MissCause;
    var tail := events[1..];
    var i :| 0 <= i < |tail| && MissCause(rows, tail[i], code) && forall j :: 0 <= j < i ==> Meets(rows, tail[j]);
    assert forall j :: 0 <= j < i + 1 ==> events[j] == if j == 0 then events[0] else tail[j - 1];
    assert MissCause(rows, events[i + 1], code);
  }

  /** Two events of the batch go to one row of the table. */
  ghost predicate Ambiguous(rows: T.Bag, events: seq<Event>)
  {
    exists i, j :: 0 <= i < j < |events| && events[i].Image().key == events[j].Image().key
                   && T.At(rows, events[i].Image().key) != []
  }

  /** How many events go to the key. */
  function Hits(events: seq<Event>, key: string): nat
  {
    if events == [] then 0 else (if events[0].Image().key == key then 1 else 0) + Hits(events[1..], key)
  }

  lemma {:induction false} MatchingHits(events: seq<Event>, key: string)
    ensures |T.Matching(events, key)| == Hits(events, key)
  {
    if events != [] { MatchingHits(events[1..], key); }
  }

  lemma {:induction false} OneHit(events: seq<Event>, key: string) returns (i: nat)
    requires Hits(events, key) > 0
    ensures i < |events| && events[i].Image().key == key
  {
    i := 0;
    if events[0].Image().key != key {
      var k := OneHit(events[1..], key);
      i := k + 1;
    }
  }

  lemma {:induction false} TwoHits(events: seq<Event>, key: string) returns (i: nat, j: nat)
    requires Hits(events, key) > 1
    ensures i < j < |events| && events[i].Image().key == key == events[j].Image().key
  {
    if events[0].Image().key == key {
      var k := OneHit(events[1..], key);
      i, j := 0, k + 1;
    } else {
      var k, l := TwoHits(events[1..], key);
      i, j := k + 1, l + 1;
    }
  }

  lemma {:induction false} HitOne(events: seq<Event>, key: string, j: nat)
    requires j < |events| && events[j].Image().key == key
    ensures Hits(events, key) > 0
  {
    if j > 0 { HitOne(events[1..], key, j - 1); }
  }

  lemma {:induction false} HitTwo(events: seq<Event>, key: string, i: nat, j: nat)
    requires i < j < |events| && events[i].Image().key == key && events[j].Image().key == key
    ensures Hits(events, key) > 1
  {
    if i > 0 { HitTwo(events[1..], key, i - 1, j - 1); } else { HitOne(events[1..], key, j - 1); }
  }

  lemma AmbiguousMeans(rows: T.Bag, events: seq<Event>)
    ensures T.MergeAmbiguous(rows, events) <==> Ambiguous(rows, events)
  {
    hide T.Matching;
    if key :| key in rows && rows[key] != [] && |T.Matching(events, key)| > 1 {
      MatchingHits(events, key);
      var i, j := TwoHits(events, key);
      assert T.At(rows, events[i].Image().key) != [];
    }
    if i, j :| 0 <= i < j < |events| && events[i].Image().key == events[j].Image().key
               && T.At(rows, events[i].Image().key) != []
    {
      var key := events[i].Image().key;
      HitTwo(events, key, i, j);
      MatchingHits(events, key);
      assert key in rows && rows[key] != [];
    }
  }

  /** A snapshot of the table has the token. */
  ghost predicate Labelled(t: T.Table, token: Digest) { exists i :: 0 <= i < |t.log| && t.log[i].token == token }

  /** The commit's label says what was applied. */
  predicate Labels(s: T.Snapshot, plan: Plan, name: string)
  {
    && s.token == plan.Token(name) && s.gen == plan.gen && s.tx == plan.tx && s.txDigest == plan.digest
    && s.input == plan.Input(name) && s.frontier == plan.commitLsn && s.manifest == plan.manifest
  }

  /** Why a new batch is refused. */
  ghost predicate BatchCause(rows: T.Bag, events: seq<Event>, code: T.Code)
  {
    if events == [] then code == T.CB24I007_EMPTY_TABLE_PLAN
    else if exists e :: e in events && !Meets(rows, e) then FirstMiss(rows, events, code)
    else code == T.CB24I006_COMMIT_METADATA_FAILURE && Ambiguous(rows, events)
  }

  /**
  One table of a transaction whose token is not there yet.  It is committed exactly if
  it has events, each fits the rows as they are and no two go to one row; then one
  labelled snapshot is added.  Else the first event that does not fit says why.
  */
  lemma TableIff(t: T.Table, plan: Plan, name: string)
    requires !Labelled(t, plan.Token(name))
    ensures var r, events := T.ApplyTable(t, plan, name), EventsFor(plan.events, name);
      && (r.Committed? <==>
            events != [] && (forall e :: e in events ==> Meets(t.rows, e)) && !Ambiguous(t.rows, events))
      && (r.Committed? ==> !r.recovered && r.snapshot == |t.log| && |r.table.log| == |t.log| + 1
                           && r.table.log[..|t.log|] == t.log && Labels(r.table.log[|t.log|], plan, name))
      && (r.Rejected? ==> BatchCause(t.rows, events, r.code))
  {
    hide EventsFor, T.Merge, T.MergeAmbiguous, Ambiguous, Meets, FirstMiss, T.CheckPreconditions;
    ChecksMean(t.rows, EventsFor(plan.events, name));
    AmbiguousMeans(t.rows, EventsFor(plan.events, name));
  }

  /** One table whose token is there: the commit is recovered exactly if its first label is the plan's. */
  lemma RecoveredIff(t: T.Table, plan: Plan, name: string, i: nat)
    requires i < |t.log| && t.log[i].token == plan.Token(name)
    requires forall j :: 0 <= j < i ==> t.log[j].token != plan.Token(name)
    ensures var r, s := T.ApplyTable(t, plan, name), t.log[i];
      && (r.Committed? <==> EventsFor(plan.events, name) != [] && s.txDigest == plan.digest
                            && s.input == plan.Input(name) && s.gen == plan.gen)
      && (r.Committed? ==> r.recovered && r.snapshot == i && r.table == t)
      && (r.Rejected? ==> r.code == if EventsFor(plan.events, name) == [] then T.CB24I007_EMPTY_TABLE_PLAN
                                    else T.CB24I008_COMMIT_TOKEN_CONFLICT)
  {
    hide EventsFor, T.Merge, T.MergeAmbiguous;
  }

  /** The place is free for an insert, else holds just the before image; no delete id is reused. */
  predicate RefMeets(w: Ref.Work, e: Event)
  {
    var place := (e.table, e.key);
    match e.change
    case Insert(_) => place !in w.rows
    case Update(before, _) => place in w.rows && w.rows[place] == before
    case Delete(before) => place in w.rows && w.rows[place] == before && e.id !in w.tombstones
  }

  /** Why the reference refuses an event. */
  function RefRefusal(w: Ref.Work, e: Event): Ref.Code
  {
    var place := (e.table, e.key);
    if e.change.Insert? then Ref.CB24R002_DUPLICATE_INSERT
    else if place !in w.rows || w.rows[place] != e.change.before then Ref.CB24R003_BEFORE_IMAGE_MISMATCH
    else Ref.INTEGRITY_ERROR
  }

  /** The place holds what the event says, every other place and tombstone what it held. */
  ghost predicate RefLeaves(w: Ref.Work, e: Event, w': Ref.Work)
  {
    var place := (e.table, e.key);
    && (match e.change
        case Insert(after) => place in w'.rows && w'.rows[place] == after
        case Update(_, after) => place in w'.rows && w'.rows[place] == after
        case Delete(_) => place !in w'.rows)
    && (forall p :: p != place ==> (p in w'.rows <==> p in w.rows))
    && (forall p :: p != place && p in w.rows ==> w'.rows[p] == w.rows[p])
    && (!e.change.Delete? ==> w'.tombstones == w.tombstones)
    && (e.change.Delete? ==> w'.tombstones == w.tombstones[e.id :=
          Ref.Tombstone(e.table, e.key, e.position, BeforeImage(e.table, e.change.before))])
  }

  lemma RefEventMeans(w: Ref.Work, e: Event)
    ensures var r := Ref.ApplyEvent(w, e);
      && (r.Ok? <==> RefMeets(w, e))
      && (r.Ok? ==> RefLeaves(w, e, r.value))
      && (r.Err? ==> r.code == RefRefusal(w, e))
  {
  }

  /**
  The reference, whatever rows a transaction touches and how often: it is refused exactly
  at a first event that does not meet the rows as those before it left them, with that
  event's error.
  */
  lemma {:induction false} RefRefusedAt(w: Ref.Work, events: seq<Event>) returns (k: nat)
    ensures Ref.ApplyEvents(w, events).Ok? <==> k == |events|
    ensures k <= |events| && Ref.ApplyEvents(w, events[..k]).Ok?
    ensures k < |events| ==>
      var before := Ref.ApplyEvents(w, events[..k]).value;
      !RefMeets(before, events[k]) && Ref.ApplyEvents(w, events) == Ref.Err(RefRefusal(before, events[k]))
    decreases |events|
  {
    hide Ref.ApplyEvent, RefMeets, RefRefusal, RefLeaves;
    k := 0;
    assert events[..0] == [];
    if events != [] {
      RefEventMeans(w, events[0]);
      if Ref.ApplyEvent(w, events[0]).Ok? {
        var i := RefRefusedAt(Ref.ApplyEvent(w, events[0]).value, events[1..]);
        k := i + 1;
        assert events[..k][0] == events[0] && events[..k][1..] == events[1..][..i];
      }
    }
  }
}
