/**
The apply coordinator step by step: what a call has written when it is killed or fails at
its opening, at a table, or at its closing.
*/
module CdcSteps {
  import opened Common
  import opened Sorting
  import opened Events
  import opened CdcApply
  import opened CdcAnswers
  import opened CdcReplay
  import C = CdcControl
  import T = IcebergCdc

  /** The generation has a checkpoint: the one it had, or a first one at the plan's frontier. */
  function Opened(w: World, plan: Plan): World
  {
    if plan.gen in w.control.checkpoints then w
    else
      var first := C.Checkpoint(plan.previousFrontier, 0, None);
      w.(control := w.control.(checkpoints := w.control.checkpoints[plan.gen := first]))
  }

  /** The transaction is claimed: as it was, or by the plan. */
  function Taken(w: World, plan: Plan): World
  {
    if (plan.gen, plan.tx) in w.control.transactions then w
    else
      var row := C.Transaction(plan.digest, plan.commitLsn, plan.manifest, plan.tables, C.APPLYING);
      w.(control := w.control.(transactions := w.control.transactions[(plan.gen, plan.tx) := row]))
  }

  /** The stored claim, if any, is under the plan's digest. */
  predicate SameDigest(w: World, plan: Plan)
  {
    (plan.gen, plan.tx) in w.control.transactions ==>
      w.control.transactions[(plan.gen, plan.tx)].digest == plan.digest
  }

  /** How a call opens that ends there. */
  function OpeningEnd(applying: set<string>, w: World, plan: Plan, lease: Lease): Option<Call>
  {
    if plan.gen !in applying then Some(Raised(w, CB24P001_GENERATION_NOT_CDC_APPLYING))
    else if lease == Writes(0) then Some(Killed(w))
    else if StartsElsewhere(w, plan) then Some(Raised(w, Control(C.CB24C001_CHECKPOINT_CONFLICT)))
    else if lease == Writes(1) then Some(Killed(Opened(w, plan)))
    else if !SameDigest(w, plan)
    then Some(Raised(Opened(w, plan), Control(C.CB24C002_TRANSACTION_REPLAY_CONFLICT)))
    else if CdcReplay.Done(w, plan) then Some(Returned(Opened(w, plan), true))
    else None
  }

  /** The opening of a call: where it ends there, and with what it goes on to the tables. */
  lemma OpeningSteps(applying: set<string>, w: World, plan: Plan, lease: Lease)
    ensures var call, ending := Apply(applying, w, plan, lease), OpeningEnd(applying, w, plan, lease);
      var taken := Taken(Opened(w, plan), plan);
      && (ending.Some? ==> call == ending.value)
      && (ending.None? ==>
            && plan.gen in taken.control.checkpoints && !lease.Spent() && !lease.Next().Spent()
            && call == Work(taken, plan, taken.control.checkpoints[plan.gen].revision, lease.Next().Next()))
  {
    hide Work;
  }

  /** The first snapshot of the table with the plan's token. */
  ghost predicate FirstLabel(t: T.Table, token: Digest, i: int)
  {
    0 <= i < |t.log| && t.log[i].token == token && forall j :: 0 <= j < i ==> t.log[j].token != token
  }

  /** After the commit: the receipt is stored, unless its token is on another one. */
  ghost predicate Receipted(w: World, plan: Plan, name: string, i: nat, p: Progress)
  {
    var c := w.control;
    var rows := T.TableOf(w.tables, name).rows;
    var receipt := C.Receipt(plan.digest, plan.Input(name), plan.Token(name), i, TableState(name, rows));
    if TokenUsed(c, plan.gen, plan.Token(name))
    then p == Halt(Raised(w, Control(C.CB24C004_RECEIPT_CONFLICT)))
    else p == Continue(w.(control := c.(receipts := c.receipts[(plan.gen, plan.tx, name) := receipt])), Unlimited)
  }

  /** What a complete visit of a table makes of it, without a receipt. */
  ghost predicate Committed(w: World, plan: Plan, name: string, p: Progress)
  {
    var t, token := T.TableOf(w.tables, name), plan.Token(name);
    if Labelled(t, token) then
      exists i :: FirstLabel(t, token, i)
        && if t.log[i].txDigest == plan.digest && t.log[i].input == plan.Input(name)
           then Receipted(w, plan, name, i, p)
           else p == Halt(Raised(w, CB24P003_RECOVERY_CONFLICT))
    else
      match T.ApplyTable(t, plan, name)
      case Rejected(code) => p == Halt(Raised(w, Target(code)))
      case Committed(t', _, _) => Receipted(w.(tables := w.tables[name := t']), plan, name, |t.log|, p)
  }

  /**
  A complete visit of one table.  With a receipt it does nothing if token and input are
  the plan's and else ends in CB24P002; without one, a commit under the token is taken
  over if it is the plan's and else ends in CB24P003; without that, the batch is
  committed, or refused as the table refuses it; and then the receipt says all of it.
  */
  lemma VisitAnswer(w: World, plan: Plan, name: string)
    ensures var p, id := VisitTable(w, plan, name, Unlimited), (plan.gen, plan.tx, name);
      && (id in w.control.receipts ==>
            var r := w.control.receipts[id];
            p == if r.token == plan.Token(name) && r.input == plan.Input(name) then Continue(w, Unlimited)
                 else Halt(Raised(w, CB24P002_RECEIPT_MISMATCH)))
      && (id !in w.control.receipts ==> Committed(w, plan, name, p))
  {
    hide T.ApplyTable, EventsFor, TokenUsed;
    var id: C.ReceiptId := (plan.gen, plan.tx, name);
    if id !in w.control.receipts {
      var t, token := T.TableOf(w.tables, name), plan.Token(name);
      CommitLeavesToken(w, plan, name, Unlimited);
      var step := CommitStep(w, plan, name, Unlimited);
      if step.Continue? {
        ReceiptIff(step.world.control, id, ReceiptOf(step.world, plan, name));
        TokenFound(w, plan, name, step.world);
      }
      if Labelled(t, token) {
        assert FirstLabel(t, token, T.SnapshotForToken(t.log, token).value);
      }
    }
  }

  /** A commit that is made carries the token as the table's last snapshot, and only there. */
  lemma TokenFound(w: World, plan: Plan, name: string, w': World)
    requires CommitStep(w, plan, name, Unlimited) == Continue(w', Unlimited)
    ensures var log, log' := T.TableOf(w.tables, name).log, T.TableOf(w'.tables, name).log;
      w'.control == w.control && T.SnapshotForToken(log', plan.Token(name)).Some?
      && T.SnapshotForToken(log', plan.Token(name)).value ==
           (if T.SnapshotForToken(log, plan.Token(name)).Some? then T.SnapshotForToken(log, plan.Token(name)).value
            else |log|)
  {
    hide EventsFor, T.Merge, T.MergeAmbiguous, T.CheckPreconditions;
    CommitLeavesToken(w, plan, name, Unlimited);
    var log := T.TableOf(w.tables, name).log;
    if T.SnapshotForToken(log, plan.Token(name)).None? {
      var log' := T.TableOf(w'.tables, name).log;
      assert log' == log + [T.SnapshotOf(plan, name)];
      assert forall i :: 0 <= i < |log| ==> log'[i] == log[i];
    }
  }

  /** The deletes have their tombstones. */
  function Buried(w: World, plan: Plan): World
    requires forall e :: e in plan.events && e.change.Delete? ==> e.table in plan.tables
  {
    w.(control := w.control.(tombstones := C.Bury(w.control.tombstones, plan, plan.events, Tokens(plan))))
  }

  /** The closing of a call: tombstones by its first write, the checkpoint by its second. */
  lemma ClosingSteps(w: World, plan: Plan, expected: nat, lease: Lease)
    ensures var call := Finish(w, plan, expected, lease);
      var listed := forall e :: e in plan.events && e.change.Delete? ==> e.table in plan.tables;
      && (lease == Writes(0) ==> call == Killed(w))
      && (lease != Writes(0) && !listed ==> call == Raised(w, Control(C.KEY_ERROR)))
      && (lease == Writes(1) && listed ==> call == Killed(Buried(w, plan)))
      && (lease != Writes(0) && lease != Writes(1) && listed ==>
            var buried := Buried(w, plan);
            match C.Finalize(buried.control, plan, expected)
            case Err(code) => call == Raised(buried, Control(FinalRefusal(buried.control, plan, expected)))
            case Ok(c) => call.Returned? && call.world == buried.(control := c)
                          && (call.replay <==> CdcReplay.Done(w, plan)))
  {
    hide C.Bury, C.Finalize, FinalRefusal, ReceiptsComplete;
    if forall e :: e in plan.events && e.change.Delete? ==> e.table in plan.tables {
      FinalizeIff(Buried(w, plan).control, plan, expected);
    }
  }
}
