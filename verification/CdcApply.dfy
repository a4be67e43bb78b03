/**
The apply coordinator (cdc_apply.py).  A call makes its durable writes one at a
time; a lease says how many of them happen before the process is killed, so one
function describes complete calls and calls cut short anywhere.
*/
module CdcApply {
  import opened Common
  import opened Events
  import T = IcebergCdc
  import C = CdcControl

  datatype Code =
    | CB24P001_GENERATION_NOT_CDC_APPLYING
    | CB24P002_RECEIPT_MISMATCH
    | CB24P003_RECOVERY_CONFLICT
    | Target(target: T.Code)
    | Control(control: C.Code)

  /** Everything durable: the control store and the target tables. */
  datatype World = World(control: C.Control, tables: T.Tables)

  datatype Call = Returned(world: World, replay: bool) | Raised(world: World, code: Code) | Killed(world: World)

  /** Either the call goes on, or it is over. */
  datatype Progress = Continue(world: World, lease: Lease) | Halt(call: Call)
  {
    function State(): World { if Continue? then world else call.world }
  }

  function ReceiptIdOf(plan: Plan, name: string): C.ReceiptId { (plan.gen, plan.tx, name) }

  /** Make the table's commit durable, or find it already durable under its token. */
  function CommitStep(w: World, plan: Plan, name: string, lease: Lease): Progress
  {
    var t := T.TableOf(w.tables, name);
    match T.SnapshotForToken(t.log, plan.Token(name))
    case Some(i) =>
      if t.log[i].txDigest != plan.digest || t.log[i].input != plan.Input(name)
      then Halt(Raised(w, CB24P003_RECOVERY_CONFLICT))
      else Continue(w, lease)
    case None =>
      if lease.Spent() then Halt(Killed(w))
      else match T.ApplyTable(t, plan, name)
        case Rejected(code) => Halt(Raised(w, Target(code)))
        case Committed(t', _, _) => Continue(w.(tables := w.tables[name := t']), lease.Next())
  }

  function ReceiptOf(w: World, plan: Plan, name: string): C.Receipt
    requires T.SnapshotForToken(T.TableOf(w.tables, name).log, plan.Token(name)).Some?
  {
    var t := T.TableOf(w.tables, name);
    C.Receipt(plan.digest, plan.Input(name), plan.Token(name),
              T.SnapshotForToken(t.log, plan.Token(name)).value, TableState(name, t.rows))
  }

  function ReceiptStep(w: World, plan: Plan, name: string, lease: Lease): Progress
    requires T.SnapshotForToken(T.TableOf(w.tables, name).log, plan.Token(name)).Some?
  {
    if lease.Spent() then Halt(Killed(w))
    else match C.RecordReceipt(w.control, ReceiptIdOf(plan, name), ReceiptOf(w, plan, name))
      case Err(code) => Halt(Raised(w, Control(code)))
      case Ok(c) => Continue(w.(control := c), lease.Next())
  }

  lemma {:induction false} CommitLeavesToken(w: World, plan: Plan, name: string, lease: Lease)
    ensures var p := CommitStep(w, plan, name, lease);
      p.Continue? ==> T.SnapshotForToken(T.TableOf(p.world.tables, name).log, plan.Token(name)).Some?
  {
    var p := CommitStep(w, plan, name, lease);
    var t := T.TableOf(w.tables, name);
    if p.Continue? && T.SnapshotForToken(t.log, plan.Token(name)) == None {
      var log := T.TableOf(p.world.tables, name).log;
      assert log[|t.log|] == T.SnapshotOf(plan, name);
    }
  }

  function VisitTable(w: World, plan: Plan, name: string, lease: Lease): Progress
  {
    var id := ReceiptIdOf(plan, name);
    if id in w.control.receipts then
      if w.control.receipts[id].token != plan.Token(name) || w.control.receipts[id].input != plan.Input(name)
      then Halt(Raised(w, CB24P002_RECEIPT_MISMATCH))
      else Continue(w, lease)
    else
      CommitLeavesToken(w, plan, name, lease);
      match CommitStep(w, plan, name, lease)
      case Halt(call) => Halt(call)
      case Continue(w1, lease1) => ReceiptStep(w1, plan, name, lease1)
  }

  function VisitTables(w: World, plan: Plan, names: seq<string>, lease: Lease): Progress
    decreases |names|
  {
    if names == [] then Continue(w, lease)
    else match VisitTable(w, plan, names[0], lease)
      case Halt(call) => Halt(call)
      case Continue(w1, lease1) => VisitTables(w1, plan, names[1..], lease1)
  }

  function Tokens(plan: Plan): map<string, Digest>
  {
    map name | name in plan.tables :: plan.Token(name)
  }

  function Finish(w: World, plan: Plan, expected: nat, lease: Lease): Call
  {
    if lease.Spent() then Killed(w)
    else match C.RecordTombstones(w.control, plan, Tokens(plan))
      case Err(code) => Raised(w, Control(code))
      case Ok(c1) =>
        var w1 := w.(control := c1);
        if lease.Next().Spent() then Killed(w1)
        else match C.Finalize(c1, plan, expected)
          case Err(code) => Raised(w1, Control(code))
          case Ok(c2) => Returned(w1.(control := c2), c1.transactions[C.IdOf(plan)].state.CHECKPOINTED?)
  }

  /** From the claim on. */
  function Work(w: World, plan: Plan, expected: nat, lease: Lease): Call
  {
    match VisitTables(w, plan, plan.Visits(), lease)
    case Halt(call) => call
    case Continue(w1, lease1) => Finish(w1, plan, expected, lease1)
  }

  /** One call of `apply_transaction`. */
  function Apply(applying: set<string>, w: World, plan: Plan, lease: Lease): Call
  {
    if plan.gen !in applying then Raised(w, CB24P001_GENERATION_NOT_CDC_APPLYING)
    else if lease.Spent() then Killed(w)
    else match C.InitializeCheckpoint(w.control, plan.gen, plan.previousFrontier)
      case Err(code) => Raised(w, Control(code))
      case Ok(c1) =>
        var w1 := w.(control := c1);
        if lease.Next().Spent() then Killed(w1)
        else match C.Claim(c1, plan)
          case Err(code) => Raised(w1, Control(code))
          case Ok(c2) =>
            var w2 := w1.(control := c2);
            if c2.transactions[C.IdOf(plan)].state.CHECKPOINTED? then Returned(w2, true)
            else Work(w2, plan, c1.checkpoints[plan.gen].revision, lease.Next().Next())
  }

  datatype Outcome = Done(replay: bool) | Failed(code: Code) | Dead

  function OutcomeOf(call: Call): Outcome
  {
    match call
    case Returned(_, replay) => Done(replay)
    case Raised(_, code) => Failed(code)
    case Killed(_) => Dead
  }

  /** cdc_apply.py's `CDCApplyCoordinator`. */
  class Coordinator {
    const applying: set<string>
    const control: C.Store
    const iceberg: T.Adapter

    ghost function Durable(): World
      reads this, control, iceberg
    {
      World(control.Value(), iceberg.tables)
    }

    constructor (applying: set<string>, control: C.Store, iceberg: T.Adapter)
      ensures this.applying == applying && this.control == control && this.iceberg == iceberg
    {
      this.applying, this.control, this.iceberg := applying, control, iceberg;
    }

    /** Commit and receipt of one table; `left` is the lease that remains. */
    method Visit(plan: Plan, name: string, lease: Lease) returns (over: Option<Outcome>, left: Lease)
      requires control.Valid()
      modifies control, iceberg
      ensures control.Valid()
      ensures Durable() == VisitTable(old(Durable()), plan, name, lease).State()
      ensures match VisitTable(old(Durable()), plan, name, lease)
              case Halt(call) => over == Some(OutcomeOf(call))
              case Continue(_, rest) => over == None && left == rest
    {
      hide EventsFor, T.SnapshotForToken, T.ApplyTable;
      left := lease;
      var token := plan.Token(name);
      var id := ReceiptIdOf(plan, name);
      if id in control.receipts {
        over := if control.receipts[id].token != token || control.receipts[id].input != plan.Input(name)
          then Some(Failed(CB24P002_RECEIPT_MISMATCH)) else None;
        return;
      }
      var t := T.TableOf(iceberg.tables, name);
      var found := T.SnapshotForToken(t.log, token);
      var recovered := found.Some?;
      if found.Some? {
        if t.log[found.value].txDigest != plan.digest || t.log[found.value].input != plan.Input(name) {
          return Some(Failed(CB24P003_RECOVERY_CONFLICT)), left;
        }
      } else {
        if lease.Spent() {
          return Some(Dead), left;
        }
        var commit := iceberg.Apply(plan, name);
        if commit.Rejected? {
          return Some(Failed(Target(commit.code))), left;
        }
        left := lease.Next();
      }
      CommitLeavesToken(old(Durable()), plan, name, lease);
      assert CommitStep(old(Durable()), plan, name, lease) == Continue(Durable(), left);
      if left.Spent() {
        return Some(Dead), left;
      }
      var code := control.Record(id, ReceiptOf(World(C.EMPTY, iceberg.tables), plan, name), recovered);
      if code.Some? {
        return Some(Failed(Control(code.value))), left;
      }
      left := left.Next();
      over := None;
    }

    /** Everything after the claim: the tables, the tombstones, the checkpoint. */
    method Process(plan: Plan, expected: nat, lease: Lease) returns (r: Outcome)
      requires control.Valid()
      modifies control, iceberg
      ensures control.Valid()
      ensures Durable() == Work(old(Durable()), plan, expected, lease).world
      ensures r == OutcomeOf(Work(old(Durable()), plan, expected, lease))
    {
      var names := plan.Visits();
      var left := lease;
      var i := 0;
      while i < |names|
        invariant 0 <= i <= |names|
        invariant control.Valid()
        invariant VisitTables(old(Durable()), plan, names, lease) == VisitTables(Durable(), plan, names[i..], left)
      {
        assert names[i..][0] == names[i] && names[i..][1..] == names[i + 1..];
        var over, rest := Visit(plan, names[i], left);
        if over.Some? {
          return over.value;
        }
        left := rest;
        i := i + 1;
      }
      r := Close(plan, expected, left);
    }

    method Close(plan: Plan, expected: nat, lease: Lease) returns (r: Outcome)
      requires control.Valid()
      modifies control, iceberg
      ensures control.Valid()
      ensures Durable() == Finish(old(Durable()), plan, expected, lease).world
      ensures r == OutcomeOf(Finish(old(Durable()), plan, expected, lease))
    {
      if lease.Spent() {
        return Dead;
      }
      var code := control.BuryDeletes(plan, Tokens(plan));
      if code.Some? {
        return Failed(Control(code.value));
      }
      if lease.Next().Spent() {
        return Dead;
      }
      var finalCode, idempotent := control.FinalizeTransaction(plan, expected);
      r := if finalCode.Some? then Failed(Control(finalCode.value)) else Done(idempotent);
    }

    method ApplyTransaction(plan: Plan, lease: Lease) returns (r: Outcome)
      requires control.Valid()
      modifies control, iceberg
      ensures control.Valid()
      ensures Durable() == Apply(applying, old(Durable()), plan, lease).world
      ensures r == OutcomeOf(Apply(applying, old(Durable()), plan, lease))
    {
      if plan.gen !in applying {
        return Failed(CB24P001_GENERATION_NOT_CDC_APPLYING);
      }
      if lease.Spent() {
        return Dead;
      }
      var code := control.Initialize(plan.gen, plan.previousFrontier);
      if code.Some? {
        return Failed(Control(code.value));
      }
      var expected := control.checkpoints[plan.gen].revision;
      if lease.Next().Spent() {
        return Dead;
      }
      code := control.ClaimTransaction(plan);
      if code.Some? {
        return Failed(Control(code.value));
      }
      if control.transactions[C.IdOf(plan)].state == C.CHECKPOINTED {
        return Done(true);
      }
      r := Process(plan, expected, lease.Next().Next());
    }
  }
}
