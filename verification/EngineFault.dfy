/** Teardown that reaches a new request too early cancels a response that does not exist. */
module EngineFault {
  import opened Common
  import opened Errno
  import opened Engine
  import opened EngineInvariant
  import opened EngineRuns
  import opened EngineLift

  /** The teardown canceller has recorded its result or found the response gone. */
  predicate Past(c: Option<Cancel>) {
    c.Some? && (c.value.phase.Counting? || InWait(c) || c.value.phase.Done?)
  }

  /** The next step of the teardown canceller is to cancel a response that does not exist. */
  predicate Missing(op: Op) {
    op.cfg.incoming && op.teardown.Some? && op.teardown.value.phase.Killing? && !op.hasResp
  }

  predicate Crash(op: Op) {
    op.teardown.Some? && op.teardown.value.phase.Crashed?
  }

  /** Who has a response, and when the teardown canceller goes without. */
  predicate OpFault(dying: bool, op: Op) {
    && (Missing(op) || Crash(op) ==> op.log.early)
    && (op.cfg.incoming && (op.work.Idle? || op.work.Queued?) ==> !op.hasResp)
    && (op.cfg.incoming && !op.cfg.unidirectional ==>
          && (op.work.Responding? || op.work.Sending? || !op.response.NoResponse? ==> op.hasResp)
          && (Final(op.errno) && !op.hasResp ==>
                dying && (Past(op.teardown) || (op.teardown.None? && op.active == 0))))
  }

  /** An outgoing operation has nothing of this. */
  lemma OutgoingFault(dying: bool, enabled: bool, op: Op, s: Step)
    requires StepOk(dying, enabled, op, s) && !op.cfg.incoming
    ensures OpFault(dying, Move(enabled, op, s).value.op)
  {
    MoveKeeps(enabled, op, s);
    InvHasNoReservedResult(op);
    MoveFrame(enabled, op, s);
  }

  lemma DeviceFault(dying: bool, op: Op, s: Step)
    requires OpInv(op) && OpFault(dying, op) && op.cfg.incoming && DeviceMove(op, s).Some?
    requires Left(op.teardown) ==> op.active == 0
    ensures OpFault(dying, DeviceMove(op, s).value.op)
  {
  }

  lemma WorkFault(dying: bool, enabled: bool, op: Op, s: Step)
    requires OpInv(op) && OpFault(dying, op) && op.cfg.incoming && WorkMove(enabled, op, s).Some? && !(dying && enabled)
    ensures OpFault(dying, WorkMove(enabled, op, s).value.op)
  {
  }

  lemma InterruptFault(dying: bool, enabled: bool, op: Op, s: Step)
    requires OpInv(op) && OpFault(dying, op) && op.cfg.incoming && InterruptMove(enabled, op, s).Some?
    ensures OpFault(dying, InterruptMove(enabled, op, s).value.op)
  {
  }

  lemma DecideFault(dying: bool, op: Op)
    requires OpInv(op) && OpFault(dying, op) && op.cfg.incoming && op.teardown.Some? && dying
    requires op.teardown.value.phase.Start? || op.teardown.value.phase.Flushed? || op.teardown.value.phase.Killing?
    requires PhaseMove(op, Teardown).Some?
    ensures OpFault(dying, PhaseMove(op, Teardown).value.op)
  {
  }

  lemma WaitFault(dying: bool, op: Op)
    requires OpFault(dying, op) && op.cfg.incoming && op.teardown.Some? && Past(op.teardown)
    requires PhaseMove(op, Teardown).Some?
    ensures OpFault(dying, PhaseMove(op, Teardown).value.op)
  {
    CancelShape(op, Teardown);
    PastStays(op);
    FaultStays(dying, op, PhaseMove(op, Teardown).value.op);
  }

  /** A canceller that has decided only waits from then on. */
  lemma PastStays(op: Op)
    requires op.teardown.Some? && Past(op.teardown) && PhaseMove(op, Teardown).Some?
    ensures StillPast(op, PhaseMove(op, Teardown).value.op)
  {
    if op.teardown.value.phase.Counting? {
      CountingStays(op);
    } else if op.teardown.value.phase.Prepared? {
      PreparedStays(op);
    } else {
      LeavingStays(op);
    }
  }

  predicate StillPast(op: Op, op': Op) {
    Past(op'.teardown) && op'.errno == op.errno && op'.log.early == op.log.early
  }

  lemma CountingStays(op: Op)
    requires op.teardown.Some? && op.teardown.value.phase.Counting? && PhaseMove(op, Teardown).Some?
    ensures StillPast(op, PhaseMove(op, Teardown).value.op)
  {
  }

  lemma PreparedStays(op: Op)
    requires op.teardown.Some? && op.teardown.value.phase.Prepared? && PhaseMove(op, Teardown).Some?
    ensures StillPast(op, PhaseMove(op, Teardown).value.op)
  {
  }

  lemma LeavingStays(op: Op)
    requires op.teardown.Some? && op.teardown.value.phase.Leaving? && PhaseMove(op, Teardown).Some?
    ensures StillPast(op, PhaseMove(op, Teardown).value.op)
  {
  }

  lemma FaultStays(dying: bool, op: Op, op': Op)
    requires OpFault(dying, op) && op'.cfg == op.cfg && op'.hasResp == op.hasResp && op'.response == op.response
    requires Past(op.teardown) && StillPast(op, op')
    requires op'.work == op.work
    ensures OpFault(dying, op')
  {
  }

  lemma HoldFault(dying: bool, op: Op, s: Step)
    requires OpInv(op) && OpFault(dying, op) && op.cfg.incoming && HoldMove(op, s).Some?
    requires (Left(op.teardown) ==> op.active == 0) && (s.CancelBegin? ==> op.active > 0)
    ensures OpFault(dying, HoldMove(op, s).value.op)
  {
  }

  lemma IncomingFault(dying: bool, enabled: bool, op: Op, s: Step)
    requires StepOk(dying, enabled, op, s) && OpFault(dying, op) && op.cfg.incoming
    ensures OpFault(dying, Move(enabled, op, s).value.op)
  {
    IncomingAgents(enabled, op, s);
    match AgentOf(s)
    case ByDevice => DeviceFault(dying, op, s);
    case ByWork => WorkFault(dying, enabled, op, s);
    case ByInterrupt => InterruptFault(dying, enabled, op, s);
    case ByCanceller => CancelStepFault(dying, op, s);
    case ByHold => HoldFault(dying, op, s);
    case _ =>
  }

  /** An incoming operation has no creator thread, no receivers and no synchronous canceller. */
  lemma IncomingAgents(enabled: bool, op: Op, s: Step)
    requires OpInv(op) && op.cfg.incoming
    ensures CreatorMove(enabled, op, s).None? && ReceiverMove(op, s).None?
    ensures op.syncCancel.None?
  {
  }

  lemma CancelFault(dying: bool, op: Op)
    requires OpInv(op) && OpFault(dying, op) && op.cfg.incoming && op.teardown.Some? && dying
    requires PhaseMove(op, Teardown).Some?
    ensures OpFault(dying, PhaseMove(op, Teardown).value.op)
  {
    if Past(op.teardown) {
      WaitFault(dying, op);
    } else {
      DecideFault(dying, op);
    }
  }

  lemma OnlyTeardown(op: Op, s: Step)
    requires OpInv(op) && op.cfg.incoming && CancelMove(op, s).Some?
    ensures s == CancelStep(Teardown) && op.teardown.Some? && CancelMove(op, s) == PhaseMove(op, Teardown)
  {
  }

  lemma CancelStepFault(dying: bool, op: Op, s: Step)
    requires OpInv(op) && OpFault(dying, op) && op.cfg.incoming && CancelMove(op, s).Some?
    requires op.teardown.Some? ==> dying
    ensures OpFault(dying, CancelMove(op, s).value.op)
  {
    OnlyTeardown(op, s);
    CancelFault(dying, op);
  }

  lemma FaultInductive()
    ensures Inductive(OpFault)
  {
    forall dying, enabled, op, s | StepOk(dying, enabled, op, s) && OpFault(dying, op)
      ensures OpFault(dying, Move(enabled, op, s).value.op)
    {
      if op.cfg.incoming {
        IncomingFault(dying, enabled, op, s);
      } else {
        OutgoingFault(dying, enabled, op, s);
      }
    }
  }

  lemma ReachableFault(c: Conn)
    requires Reachable(c)
    ensures ConnInv(c) && All(OpFault, c)
  {
    ReachableInv(c);
    FaultInductive();
    ReachableAll(OpFault, c);
  }

  // ---------------------------------------------------------- when it happens

  lemma DecisionIffEarly(dying: bool, op: Op)
    requires OpInv(op) && OpFault(dying, op) && op.cfg.incoming
    requires op.teardown.Some? && op.teardown.value.phase.Flushed?
    ensures PhaseMove(op, Teardown).Some?
    ensures var op' := PhaseMove(op, Teardown).value.op;
      (Missing(op') <==> op.errno == EBADR) && (op'.log.early <==> op.errno == EBADR)
    ensures op.errno == EBADR <==> op.creator.InActive?
  {
  }

  /**
   In every reachable state in which the teardown canceller of an incoming operation is about to decide: it goes on
   to cancel a response that does not exist exactly when the result is still -EBADR, that is, when the interrupt
   handler stands between get_active and result_set.
   */
  lemma MissingIffEarly(c: Conn, o: nat)
    requires Reachable(c) && o in c.ops
    requires c.ops[o].cfg.incoming && c.ops[o].teardown.Some? && c.ops[o].teardown.value.phase.Flushed?
    ensures PhaseMove(c.ops[o], Teardown).Some?
    ensures var op' := PhaseMove(c.ops[o], Teardown).value.op;
      (Missing(op') <==> c.ops[o].errno == EBADR) && (op'.log.early <==> c.ops[o].errno == EBADR)
    ensures c.ops[o].errno == EBADR <==> c.ops[o].creator.InActive?
  {
    ReachableFault(c);
    DecisionIffEarly(c.state.Destroying?, c.ops[o]);
  }

  /** In every reachable state a canceller that has faulted, or is about to, had decided early; the cancel faults
      exactly when the response does not exist. */
  lemma FaultWasEarly(c: Conn, o: nat)
    requires Reachable(c) && o in c.ops
    ensures Crash(c.ops[o]) || Missing(c.ops[o]) ==> c.ops[o].cfg.incoming && c.ops[o].log.early
    ensures (c.ops[o].teardown.Some? && c.ops[o].teardown.value.phase.Killing? ==>
             (Missing(c.ops[o]) <==> && PhaseMove(c.ops[o], Teardown).Some?
                                     && Crash(PhaseMove(c.ops[o], Teardown).value.op)))
  {
    ReachableFault(c);
    assert OpFault(c.state.Destroying?, c.ops[o]);
  }

  // ----------------------------------------------------------- no way back

  /** The request handler may still make the response. */
  predicate MayAllocate(op: Op) {
    op.creator.InActive? || op.creator.InArmed? || op.work.Queued?
  }

  /** The teardown canceller has faulted, or can do nothing else. */
  predicate Doomed(op: Op) {
    Crash(op) || (Missing(op) && !MayAllocate(op))
  }

  lemma DeviceDoomed(op: Op, s: Step)
    requires OpInv(op) && Doomed(op) && op.cfg.incoming && DeviceMove(op, s).Some?
    ensures Doomed(DeviceMove(op, s).value.op)
  {
  }

  lemma WorkDoomed(enabled: bool, op: Op, s: Step)
    requires OpInv(op) && Doomed(op) && op.cfg.incoming && WorkMove(enabled, op, s).Some?
    ensures Doomed(WorkMove(enabled, op, s).value.op)
  {
  }

  lemma InterruptDoomed(enabled: bool, op: Op, s: Step)
    requires OpInv(op) && Doomed(op) && op.cfg.incoming && InterruptMove(enabled, op, s).Some?
    ensures Doomed(InterruptMove(enabled, op, s).value.op)
  {
  }

  lemma NoHold(op: Op, s: Step)
    requires OpInv(op) && Doomed(op) && op.cfg.incoming
    ensures HoldMove(op, s).None?
  {
  }

  lemma CancelDoomed(op: Op, s: Step)
    requires OpInv(op) && Doomed(op) && op.cfg.incoming && CancelMove(op, s).Some?
    ensures Doomed(CancelMove(op, s).value.op)
  {
  }

  /** No step of any agent undoes it. */
  lemma DoomedStays(enabled: bool, op: Op, s: Step)
    requires OpInv(op) && Doomed(op) && Move(enabled, op, s).Some?
    ensures Doomed(Move(enabled, op, s).value.op)
  {
    match AgentOf(s)
    case ByDevice => DeviceDoomed(op, s);
    case ByWork => WorkDoomed(enabled, op, s);
    case ByInterrupt => InterruptDoomed(enabled, op, s);
    case ByCanceller => CancelDoomed(op, s);
    case ByHold => NoHold(op, s);
    case _ =>
  }

  /** The teardown loop is stuck in an operation whose canceller has faulted or must. */
  predicate Stuck(c: Conn) {
    c.loop.Busy? && c.loop.op in c.ops && Doomed(c.ops[c.loop.op])
  }

  lemma StuckApply(c: Conn, e: Event)
    requires ConnInv(c) && Stuck(c) && Apply(c, e).Some?
    ensures Stuck(Apply(c, e).value)
  {
    var op := c.ops[c.loop.op];
    ApplySteps(c, e, c.loop.op);
    var op' := Apply(c, e).value.ops[c.loop.op];
    if op' != op {
      var s :| StepOk(c.state.Destroying?, c.state.Enabled?, op, s) && op' == Move(c.state.Enabled?, op, s).value.op;
      DoomedStays(c.state.Enabled?, op, s);
    }
    LoopStays(c, e);
  }

  lemma LoopStays(c: Conn, e: Event)
    requires ConnInv(c) && Stuck(c) && Apply(c, e).Some?
    ensures Apply(c, e).value.loop == c.loop
  {
    if e.Drop? {
      DropResult(c);
    }
  }

  /** A stuck loop stays stuck, whatever happens. */
  lemma {:induction false} StuckForever(c: Conn, es: seq<Event>)
    requires ConnInv(c) && Stuck(c) && Exec(c, es).Some?
    ensures Stuck(Exec(c, es).value)
    decreases |es|
  {
    if es != [] {
      StuckApply(c, es[0]);
      ApplyKeeps(c, es[0]);
      StuckForever(Apply(c, es[0]).value, es[1..]);
    }
  }
}
