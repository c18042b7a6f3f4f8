/** What the host device still does with a message, and who may find its operation freed. */
module EngineReport {
  import opened Common
  import opened Engine
  import opened EngineInvariant
  import opened EngineRuns
  import opened EngineLift

  // --------------------------------------------------------------- invariant

  predicate InQueueing(c: Option<Cancel>) {
    c.Some? && c.value.phase.CQueueing?
  }

  /** The host device's callback for the request has not finished. */
  predicate WithDevice(r: Request) {
    r.InDevice? || r.ReportWon? || r.Clearing?
  }

  /** Before the host device has reported, only a response can have completed the operation; before it is done with the
      message, only a response or the error that it reported. */
  predicate OpReport(dying: bool, op: Op) {
    !op.cfg.incoming ==>
      && (op.request.InDevice? && !op.work.Idle? ==> op.log.winner.Some?)
      && (op.request.Clearing? && !op.work.Idle? ==> op.log.winner.Some? || op.log.failed)
      && (WithDevice(op.request) ==> !InQueueing(op.syncCancel) && !InQueueing(op.teardown))
      && (op.request.ReportWon? ==> op.log.failed)
      && (op.log.failed && !op.request.ReportWon? ==> !op.work.Idle?)
      && (Owing(op.receivers) >= 1 ==> op.log.winner.Some?)
      && (op.log.winner.Some? && op.work.Idle? ==> Owing(op.receivers) >= 1)
  }

  /** A step that changes nothing of this, or queues the work when the host device is done. */
  lemma ReportSame(dying: bool, op: Op, op': Op)
    requires OpReport(dying, op) && op'.cfg == op.cfg && op'.request == op.request && op'.receivers == op.receivers
    requires op'.log.winner == op.log.winner && op'.log.failed == op.log.failed
    requires op'.work == op.work || (!op'.work.Idle? && !WithDevice(op.request))
    requires InQueueing(op'.syncCancel) ==> InQueueing(op.syncCancel) || !WithDevice(op.request)
    requires InQueueing(op'.teardown) ==> InQueueing(op.teardown) || !WithDevice(op.request)
    ensures OpReport(dying, op')
  {
  }

  lemma SenderReport(dying: bool, enabled: bool, op: Op, s: Step)
    requires OpInv(op) && OpReport(dying, op) && !op.cfg.incoming && SenderMove(enabled, op, s).Some?
    ensures OpReport(dying, SenderMove(enabled, op, s).value.op)
  {
    if s.HandOver? {
      HandOverReport(dying, enabled, op, s.ret);
    } else {
      ReportSame(dying, op, SenderMove(enabled, op, s).value.op);
    }
  }

  lemma HandOverReport(dying: bool, enabled: bool, op: Op, ret: int)
    requires OpInv(op) && OpReport(dying, op) && !op.cfg.incoming && op.creator.Armed?
    requires HandOverMove(enabled, op, ret).Some?
    ensures OpReport(dying, HandOverMove(enabled, op, ret).value.op)
  {
  }

  lemma WaiterReport(dying: bool, op: Op, s: Step)
    requires OpReport(dying, op) && WaiterMove(op, s).Some?
    ensures OpReport(dying, WaiterMove(op, s).value.op)
  {
    ReportSame(dying, op, WaiterMove(op, s).value.op);
  }

  lemma CreatorReport(dying: bool, enabled: bool, op: Op, s: Step)
    requires OpInv(op) && OpReport(dying, op) && !op.cfg.incoming && CreatorMove(enabled, op, s).Some?
    ensures OpReport(dying, CreatorMove(enabled, op, s).value.op)
  {
    if Sends(s) {
      SenderReport(dying, enabled, op, s);
    } else {
      WaiterReport(dying, op, s);
    }
  }

  lemma SentReport(dying: bool, op: Op, status: int)
    requires OpReport(dying, op) && !op.cfg.incoming && SentMove(op, status).Some?
    ensures OpReport(dying, SentMove(op, status).value.op)
  {
  }

  lemma RequestReport(dying: bool, op: Op, s: Step)
    requires OpReport(dying, op) && !op.cfg.incoming && DeviceMove(op, s).Some?
    requires s.SendReportQueue? || s.ClearRequest?
    ensures OpReport(dying, DeviceMove(op, s).value.op)
  {
  }

  lemma ResponseReported(dying: bool, op: Op, s: Step)
    requires OpReport(dying, op) && !op.cfg.incoming && DeviceMove(op, s).Some?
    requires s.ResponseReport? || s.ResponsePut? || s.ClearResponse?
    ensures OpReport(dying, DeviceMove(op, s).value.op)
  {
    ReportSame(dying, op, DeviceMove(op, s).value.op);
  }

  lemma DeviceReport(dying: bool, op: Op, s: Step)
    requires OpReport(dying, op) && !op.cfg.incoming && DeviceMove(op, s).Some?
    ensures OpReport(dying, DeviceMove(op, s).value.op)
  {
    match s
    case SendReport(status) => SentReport(dying, op, status);
    case SendReportQueue => RequestReport(dying, op, s);
    case ClearRequest => RequestReport(dying, op, s);
    case _ => ResponseReported(dying, op, s);
  }

  lemma ReceiverReport(dying: bool, op: Op, s: Step)
    requires OpInv(op) && OpReport(dying, op) && !op.cfg.incoming && ReceiverMove(op, s).Some?
    ensures OpReport(dying, ReceiverMove(op, s).value.op)
  {
    var op' := ReceiverMove(op, s).value.op;
    match s
    case Lookup(data) => OwingAppend(op.receivers, Found(data));
    case ReceiverDecide(i) => OwingUpdate(op.receivers, i, op'.receivers[i]);
    case ReceiverCopy(i) => OwingUpdate(op.receivers, i, Queueing);
    case ReceiverQueue(i) =>
      OwingUpdate(op.receivers, i, Putting);
      OwingMember(op.receivers, i);
    case ReceiverPut(i) => OwingRemove(op.receivers, i);
  }

  lemma WorkReport(dying: bool, enabled: bool, op: Op, s: Step)
    requires OpInv(op) && OpReport(dying, op) && !op.cfg.incoming && WorkMove(enabled, op, s).Some?
    ensures OpReport(dying, WorkMove(enabled, op, s).value.op)
  {
  }

  lemma PhaseReport(dying: bool, op: Op, op1: Op, who: Who, phase: Phase)
    requires OpReport(dying, op) && Slot(op1, who).Some? && op1.cfg == op.cfg && !op.cfg.incoming
    requires op1.syncCancel == op.syncCancel && op1.teardown == op.teardown && op1.request == op.request
    requires op1.receivers == op.receivers && op1.log.winner == op.log.winner && op1.log.failed == op.log.failed
    requires op1.work == op.work || (!op1.work.Idle? && !WithDevice(op.request))
    requires phase.CQueueing? ==> !WithDevice(op.request)
    ensures OpReport(dying, SetPhase(op1, who, phase))
  {
    ReportSame(dying, op, SetPhase(op1, who, phase));
  }

  lemma KillReport(dying: bool, op: Op, who: Who)
    requires OpReport(dying, op) && !op.cfg.incoming && Slot(op, who).Some? && PhaseMove(op, who).Some?
    requires Slot(op, who).value.phase.Killing? || Slot(op, who).value.phase.CQueueing?
    ensures OpReport(dying, PhaseMove(op, who).value.op)
  {
    if Slot(op, who).value.phase.Killing? {
      PhaseReport(dying, op, op, who, CQueueing);
    } else {
      PhaseReport(dying, op, QueueWork(op), who, Counting);
    }
  }

  lemma WaitReport(dying: bool, op: Op, who: Who)
    requires OpReport(dying, op) && !op.cfg.incoming && Slot(op, who).Some? && PhaseMove(op, who).Some?
    requires Slot(op, who).value.phase.Counting? || Slot(op, who).value.phase.Prepared?
    ensures OpReport(dying, PhaseMove(op, who).value.op)
  {
    if Slot(op, who).value.phase.Counting? {
      PhaseReport(dying, op, op.(waiters := op.waiters + 1), who, Prepared);
    } else {
      PhaseReport(dying, op, op, who, if op.active != 0 then Asleep else Leaving);
    }
  }

  lemma DecideReport(dying: bool, op: Op, who: Who)
    requires OpReport(dying, op) && !op.cfg.incoming && Slot(op, who).Some? && Slot(op, who).value.phase.Start?
    ensures PhaseMove(op, who).Some? && OpReport(dying, PhaseMove(op, who).value.op)
  {
    var errno := Slot(op, who).value.errno;
    PhaseReport(dying, op, Decide(op, errno), who, if Wins(op, errno) then Killing else Counting);
  }

  lemma LeaveReport(dying: bool, op: Op, who: Who)
    requires OpReport(dying, op) && !op.cfg.incoming && Slot(op, who).Some? && Slot(op, who).value.phase.Leaving?
    ensures PhaseMove(op, who).Some? && OpReport(dying, PhaseMove(op, who).value.op)
  {
    ReportSame(dying, op, PhaseMove(op, who).value.op);
  }

  lemma CancelReport(dying: bool, op: Op, who: Who)
    requires OpReport(dying, op) && !op.cfg.incoming && Slot(op, who).Some? && PhaseMove(op, who).Some?
    ensures OpReport(dying, PhaseMove(op, who).value.op)
  {
    var phase := Slot(op, who).value.phase;
    if phase.Start? {
      DecideReport(dying, op, who);
    } else if phase.Killing? || phase.CQueueing? {
      KillReport(dying, op, who);
    } else if phase.Leaving? {
      LeaveReport(dying, op, who);
    } else {
      WaitReport(dying, op, who);
    }
  }

  lemma HoldReport(dying: bool, op: Op, s: Step)
    requires OpReport(dying, op) && !op.cfg.incoming && HoldMove(op, s).Some?
    ensures OpReport(dying, HoldMove(op, s).value.op)
  {
    if s.SpuriousWake? {
      ReportSame(dying, op, SetPhase(op, s.who, Prepared));
    } else {
      ReportSame(dying, op, HoldMove(op, s).value.op);
    }
  }

  lemma MoveReport(dying: bool, enabled: bool, op: Op, s: Step)
    requires StepOk(dying, enabled, op, s) && OpReport(dying, op)
    ensures OpReport(dying, Move(enabled, op, s).value.op)
  {
    if op.cfg.incoming {
      InvHasNoReservedResult(op);
      MoveFrame(enabled, op, s);
    } else {
      match AgentOf(s)
      case ByCreator => CreatorReport(dying, enabled, op, s);
      case ByDevice => DeviceReport(dying, op, s);
      case ByReceiver => ReceiverReport(dying, op, s);
      case ByWork => WorkReport(dying, enabled, op, s);
      case ByInterrupt =>
      case ByCanceller => CancelReport(dying, op, s.who);
      case ByHold => HoldReport(dying, op, s);
    }
  }

  lemma ReportInductive()
    ensures Inductive(OpReport)
  {
    forall dying, enabled, op, s | StepOk(dying, enabled, op, s) && OpReport(dying, op)
      ensures OpReport(dying, Move(enabled, op, s).value.op)
    {
      MoveReport(dying, enabled, op, s);
    }
  }

  lemma ReachableReport(c: Conn)
    requires Reachable(c)
    ensures ConnInv(c) && All(OpReport, c)
  {
    ReachableInv(c);
    ReportInductive();
    ReachableAll(OpReport, c);
  }

  // ------------------------------------------------------- no use after free

  /** What the host device does without a reference of its own: report on a request, and clear a message after the
      report. */
  predicate Unheld(s: Step) {
    s.SendReport? || s.ClearRequest? || s.ClearResponse?
  }

  lemma CreatorHoldsOp(enabled: bool, op: Op, s: Step)
    requires OpInv(op) && (CreatorMove(enabled, op, s).Some? || InterruptMove(enabled, op, s).Some?)
    ensures op.kref > 0
  {
  }

  lemma WorkHoldsOp(enabled: bool, op: Op, s: Step)
    requires OpInv(op) && WorkMove(enabled, op, s).Some?
    ensures op.kref > 0
  {
  }

  lemma DeviceHoldsOp(op: Op, s: Step)
    requires OpInv(op) && DeviceMove(op, s).Some? && !Unheld(s)
    ensures op.kref > 0
  {
  }

  lemma ReceiverHoldsOp(op: Op, s: Step)
    requires OpInv(op) && ReceiverMove(op, s).Some? && !s.Lookup?
    ensures op.kref > 0
  {
  }

  lemma CancellerHoldsOp(op: Op, s: Step)
    requires OpInv(op) && (CancelMove(op, s).Some? || (HoldMove(op, s).Some? && !s.CancelBegin?))
    ensures op.kref > 0
  {
  }

  /** Whoever can move holds a reference, except the host device in those three steps. */
  lemma MoverHolds(enabled: bool, op: Op, s: Step)
    requires OpInv(op) && Move(enabled, op, s).Some? && !Unheld(s)
    requires s.Lookup? || s.CancelBegin? ==> op.active > 0
    ensures op.kref > 0
  {
    match AgentOf(s)
    case ByCreator => CreatorHoldsOp(enabled, op, s);
    case ByDevice => DeviceHoldsOp(op, s);
    case ByReceiver => if !s.Lookup? { ReceiverHoldsOp(op, s); }
    case ByWork => WorkHoldsOp(enabled, op, s);
    case ByInterrupt => CreatorHoldsOp(enabled, op, s);
    case ByCanceller => CancellerHoldsOp(op, s);
    case ByHold => if !s.CancelBegin? { CancellerHoldsOp(op, s); }
  }

  /** The host device is not done with the request, although an event that it does not wait for has completed the
      operation: a response, or the error that it reported itself. */
  predicate Overtaken(op: Op) {
    && !op.cfg.incoming && op.accepted
    && (|| (op.request.InDevice? && op.log.winner.Some?)
        || (op.request.Clearing? && (op.log.winner.Some? || op.log.failed)))
  }

  /**
   In every reachable state an agent that can move finds the reference count positive, with these exceptions: the host
   device may report on a request that a response overtook, and clear a request after a response or its own error
   report has completed the operation, or a response after the last reference is gone.
   */
  lemma NeverTouchedAfterFree(c: Conn, o: nat, s: Step)
    requires Reachable(c) && o in c.ops && Move(c.state.Enabled?, c.ops[o], s).Some?
    requires s.Lookup? || s.CancelBegin? ==> o in c.list
    ensures (c.ops[o].kref == 0 ==>
             || ((s.SendReport? || s.ClearRequest?) && Overtaken(c.ops[o]))
             || (s.ClearResponse? && c.ops[o].response.RespClearing?))
  {
    ReachableReport(c);
    var op := c.ops[o];
    if !Unheld(s) {
      MoverHolds(c.state.Enabled?, op, s);
    } else if op.kref == 0 {
      UnheldNeeds(op, s);
      if !s.ClearResponse? {
        FreedWasOvertaken(c.state.Destroying?, op);
      }
    }
  }

  lemma UnheldNeeds(op: Op, s: Step)
    requires Unheld(s) && DeviceMove(op, s).Some?
    ensures s.ClearResponse? ==> op.response.RespClearing?
    ensures !s.ClearResponse? ==> op.request.InDevice? || op.request.Clearing?
  {
  }

  lemma FreedWasOvertaken(dying: bool, op: Op)
    requires OpInv(op) && OpReport(dying, op) && (op.request.InDevice? || op.request.Clearing?) && op.kref == 0
    ensures Overtaken(op)
  {
  }
}
