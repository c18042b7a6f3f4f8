/** The callback for a response writes to it after the report, which may have dropped the last reference. */
module EngineClear {
  import opened Common
  import opened Engine
  import opened EngineInvariant
  import opened EngineRuns
  import opened EngineLift
  import opened EngineFault
  import opened EngineProgress
  import opened EngineTeardown

  // --------------------------------------------------------------- invariant

  /** While the host device has the response, a teardown canceller has still to cancel it. */
  predicate OpHeld(dying: bool, op: Op) {
    op.cfg.incoming && ResponseRank(op.response) > 0 ==> !Past(op.teardown) && !Crash(op)
  }

  lemma WorkHeld(dying: bool, enabled: bool, op: Op, s: Step)
    requires OpInv(op) && OpHeld(dying, op) && op.cfg.incoming && WorkMove(enabled, op, s).Some?
    requires !(dying && enabled) && (op.teardown.Some? ==> dying)
    ensures OpHeld(dying, WorkMove(enabled, op, s).value.op)
  {
    WorkSlots(enabled, op, s, Teardown);
  }

  lemma DeviceHeld(dying: bool, op: Op, s: Step)
    requires OpHeld(dying, op) && op.cfg.incoming && DeviceMove(op, s).Some?
    ensures OpHeld(dying, DeviceMove(op, s).value.op)
  {
    DeviceLowers(op, s);
    DeviceSlots(op, s, Teardown);
  }

  lemma InterruptHeld(dying: bool, enabled: bool, op: Op, s: Step)
    requires OpInv(op) && op.cfg.incoming && InterruptMove(enabled, op, s).Some?
    ensures OpHeld(dying, InterruptMove(enabled, op, s).value.op)
  {
  }

  lemma CancelHeld(dying: bool, op: Op)
    requires OpInv(op) && OpFault(dying, op) && OpHeld(dying, op) && op.cfg.incoming && op.teardown.Some?
    requires PhaseMove(op, Teardown).Some?
    ensures OpHeld(dying, PhaseMove(op, Teardown).value.op)
  {
  }

  lemma HoldHeld(dying: bool, op: Op, s: Step)
    requires OpHeld(dying, op) && op.cfg.incoming && HoldMove(op, s).Some?
    ensures OpHeld(dying, HoldMove(op, s).value.op)
  {
  }

  /** With the response bookkeeping that it rests on. */
  predicate OpClear(dying: bool, op: Op) {
    OpFault(dying, op) && OpHeld(dying, op)
  }

  lemma MoveHeld(dying: bool, enabled: bool, op: Op, s: Step)
    requires StepOk(dying, enabled, op, s) && OpClear(dying, op) && op.cfg.incoming
    ensures OpHeld(dying, Move(enabled, op, s).value.op)
  {
    match AgentOf(s)
    case ByDevice => DeviceHeld(dying, op, s);
    case ByWork => WorkHeld(dying, enabled, op, s);
    case ByInterrupt => InterruptHeld(dying, enabled, op, s);
    case ByCanceller => CancelHeld(dying, op);
    case ByHold => HoldHeld(dying, op, s);
    case _ =>
  }

  lemma ClearInductive()
    ensures Inductive(OpClear)
  {
    FaultInductive();
    forall dying, enabled, op, s | StepOk(dying, enabled, op, s) && OpClear(dying, op)
      ensures OpClear(dying, Move(enabled, op, s).value.op)
    {
      InvHasNoReservedResult(op);
      MoveFrame(enabled, op, s);
      if op.cfg.incoming {
        MoveHeld(dying, enabled, op, s);
      }
    }
  }

  lemma ReachableClear(c: Conn)
    requires Reachable(c)
    ensures ConnInv(c) && All(OpClear, c)
  {
    ReachableInv(c);
    ClearInductive();
    ReachableAll(OpClear, c);
  }

  // --------------------------------------------------------- a held response

  /** A teardown canceller that came in time holds the operation until the response has been cleared. */
  predicate Waits(op: Op) {
    op.cfg.incoming && (op.response.RespDone? || (op.response.RespClearing? && op.teardown.Some?))
  }

  lemma DeviceWaits(op: Op, s: Step)
    requires Waits(op) && DeviceMove(op, s).Some?
    ensures Waits(DeviceMove(op, s).value.op)
  {
  }

  lemma OthersWait(dying: bool, enabled: bool, op: Op, s: Step)
    requires StepOk(dying, enabled, op, s) && OpHeld(dying, op) && Waits(op) && !AgentOf(s).ByDevice?
    ensures Waits(Move(enabled, op, s).value.op)
  {
    InvHasNoReservedResult(op);
    MoveFrame(enabled, op, s);
    ResponseStays(enabled, op, s);
  }

  /** Once the response has been sent, only the host device changes its state. */
  lemma ResponseStays(enabled: bool, op: Op, s: Step)
    requires OpInv(op) && op.cfg.incoming && !op.response.NoResponse? && !AgentOf(s).ByDevice?
    requires Move(enabled, op, s).Some?
    ensures Move(enabled, op, s).value.op.response == op.response
    ensures op.teardown.Some? && !Past(op.teardown) ==> Move(enabled, op, s).value.op.teardown.Some?
  {
    match AgentOf(s)
    case ByWork => WorkKeepsResponse(enabled, op, s);
    case ByCanceller => CancelShape(op, s.who);
    case _ =>
  }

  lemma WorkKeepsResponse(enabled: bool, op: Op, s: Step)
    requires OpInv(op) && op.cfg.incoming && !op.response.NoResponse? && WorkMove(enabled, op, s).Some?
    ensures WorkMove(enabled, op, s).value.op.response == op.response
    ensures op.teardown.Some? ==> WorkMove(enabled, op, s).value.op.teardown.Some?
  {
  }

  lemma {:induction false} WaitsOn(c: Conn, es: seq<Event>, o: nat)
    requires ConnInv(c) && All(OpClear, c) && Exec(c, es).Some? && o in c.ops && Waits(c.ops[o])
    ensures ConnInv(Exec(c, es).value) && o in Exec(c, es).value.ops && Waits(Exec(c, es).value.ops[o])
    decreases |es|
  {
    if es != [] {
      var c' := Apply(c, es[0]).value;
      ApplySteps(c, es[0], o);
      if c'.ops[o] != c.ops[o] {
        StepWaits(c.state.Destroying?, c.state.Enabled?, c.ops[o], c'.ops[o]);
      }
      ApplyKeeps(c, es[0]);
      ClearInductive();
      ApplyAll(OpClear, c, es[0]);
      WaitsOn(c', es[1..], o);
    }
  }

  lemma StepWaits(dying: bool, enabled: bool, op: Op, op': Op)
    requires OpHeld(dying, op) && Waits(op) && StepsTo(dying, enabled, op, op')
    ensures Waits(op')
  {
    var s :| StepOk(dying, enabled, op, s) && op' == Move(enabled, op, s).value.op;
    if AgentOf(s).ByDevice? {
      DeviceWaits(op, s);
    } else {
      OthersWait(dying, enabled, op, s);
    }
  }

  // -------------------------------------------------------------- late clears

  /** The operation has been freed, and the callback has still to clear its response. */
  predicate ClearsFreed(c: Conn, o: nat) {
    o in c.ops && c.ops[o].kref == 0 && c.ops[o].response.RespClearing?
  }

  lemma ResponseRefs(op: Op)
    requires OpInv(op) && op.response.RespClearing?
    ensures op.kref == 0 <==> op.work.Finished? && op.teardown.None?
    ensures op.cfg.incoming && (op.work.Called? || op.work.Dropped? || op.work.Finished?)
  {
  }

  lemma WorkGoesOn(enabled: bool, op: Op)
    requires op.response.RespClearing? && op.teardown.None? && (op.work.Called? || op.work.Dropped?)
    ensures WorkMove(enabled, op, WorkStep(op)).Some? && AgentOf(WorkStep(op)).ByWork?
    ensures var op' := WorkMove(enabled, op, WorkStep(op)).value.op;
      op'.response.RespClearing? && op'.teardown.None? && WorkRank(op'.work) < WorkRank(op.work)
  {
  }

  lemma {:induction false} WorkToEnd(c: Conn, o: nat) returns (es: seq<Event>)
    requires ConnInv(c) && o in c.ops && c.ops[o].response.RespClearing? && c.ops[o].teardown.None?
    ensures Exec(c, es).Some? && ClearsFreed(Exec(c, es).value, o)
    decreases WorkRank(c.ops[o].work)
  {
    var op := c.ops[o];
    ResponseRefs(op);
    if op.work.Finished? {
      es := [];
    } else {
      WorkGoesOn(c.state.Enabled?, op);
      var e := OpStep(o, WorkStep(op));
      CanStep(c, o, WorkStep(op));
      ApplyKeeps(c, e);
      var rest := WorkToEnd(Apply(c, e).value, o);
      ExecCons(c, e, rest);
      es := [e] + rest;
    }
  }

  /**
   In every reachable state in which the callback for a response has reported and has still to clear it: it finds the
   operation freed now exactly when the handler's work is done and teardown does not hold the operation, that is, when
   the last reference has gone; and some run frees it first exactly when teardown does not hold it now.
   */
  lemma ResponseClearedLate(c: Conn, o: nat)
    requires Reachable(c) && o in c.ops && c.ops[o].response.RespClearing?
    ensures ClearsFreed(c, o) <==> c.ops[o].work.Finished? && c.ops[o].teardown.None?
    ensures (exists es :: Exec(c, es).Some? && ClearsFreed(Exec(c, es).value, o)) <==> c.ops[o].teardown.None?
  {
    ReachableClear(c);
    ResponseRefs(c.ops[o]);
    if c.ops[o].teardown.None? {
      var es := WorkToEnd(c, o);
    } else {
      forall es | Exec(c, es).Some? ensures !ClearsFreed(Exec(c, es).value, o) {
        WaitsOn(c, es, o);
        WaitingIsHeld(Exec(c, es).value.ops[o]);
      }
    }
  }

  lemma WaitingIsHeld(op: Op)
    requires OpInv(op) && Waits(op)
    ensures op.kref > 0 || op.response.RespDone?
  {
  }
}
