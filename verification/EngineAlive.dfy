/** No agent is ever stuck: each can take its next step unless it waits for another, whatever the outside answers. */
module EngineAlive {
  import opened Common
  import opened Errno
  import opened Engine
  import opened EngineInvariant
  import opened EngineRuns

  predicate Can(enabled: bool, op: Op, s: Step) {
    Move(enabled, op, s).Some?
  }

  /** The thread or interrupt that created the operation. */
  ghost predicate CreatorGoesOn(enabled: bool, op: Op) {
    match op.creator
    case Holding => Can(enabled, op, Destroy) && forall cycle :: Can(enabled, op, AssignId(cycle))
    case Numbered => Can(enabled, op, Arm)
    case Armed => forall ret :: Can(enabled, op, HandOver(ret)) <==> enabled || ret == ENOTCONN
    case Refused => Can(enabled, op, Destroy)
    case Awaiting =>
      && Can(enabled, op, GiveUp(false)) && Can(enabled, op, GiveUp(true))
      && (Can(enabled, op, CompletionSeen) <==> op.completed)
    case Collecting => Can(enabled, op, Collect)
    case Returned => Can(enabled, op, Destroy)
    case InCreated => Can(enabled, op, RequestActivate)
    case InActive => Can(enabled, op, RequestArm)
    case InArmed => Can(enabled, op, RequestQueue)
    case AsyncSent => true          // leaves the rest to the callback
    case Cancelling => op.syncCancel.Some?
    case Gone => true
  }

  /** The work item, the host device and the handler may answer anything but -EINPROGRESS. */
  ghost predicate WorkGoesOn(enabled: bool, op: Op) {
    match op.work
    case Idle => true
    case Queued =>
      if op.cfg.incoming then
        && Can(enabled, op, NoHandler)
        && forall status, made :: Can(enabled, op, HandlerReturns(status, made)) <==> status != EINPROGRESS
      else Can(enabled, op, RunCallback)
    case Responding(_) => Can(enabled, op, RecordStatus)
    case Sending(_) => forall ret :: Can(enabled, op, SendResponse(ret)) <==> enabled || ret == ENOTCONN
    case Called => Can(enabled, op, WorkPutActive)
    case Dropped => Can(enabled, op, WorkPut)
    case Finished => true
  }

  ghost predicate DeviceGoesOn(enabled: bool, op: Op) {
    && (op.request.InDevice? ==>
          forall status :: Can(enabled, op, SendReport(status)) <==> status != EINPROGRESS)
    && (op.request.ReportWon? ==> Can(enabled, op, SendReportQueue))
    && (op.request.Clearing? ==> Can(enabled, op, ClearRequest))
    && (op.response.RespInDevice? ==> Can(enabled, op, ResponseReport))
    && (op.response.RespDropping? ==> Can(enabled, op, ResponsePut))
    && (op.response.RespClearing? ==> Can(enabled, op, ClearResponse))
  }

  predicate ReceiverGoesOn(enabled: bool, op: Op, i: nat)
    requires i < |op.receivers|
  {
    match op.receivers[i]
    case Found(_) => Can(enabled, op, ReceiverDecide(i))
    case Copying(_) => Can(enabled, op, ReceiverCopy(i))
    case Queueing => Can(enabled, op, ReceiverQueue(i))
    case Putting => Can(enabled, op, ReceiverPut(i))
  }

  ghost predicate ReceiversGoOn(enabled: bool, op: Op) {
    forall i :: 0 <= i < |op.receivers| ==> ReceiverGoesOn(enabled, op, i)
  }

  /** What a canceller may have to wait for: the handler, the host device, or the last active user. */
  predicate Waits(op: Op, phase: Phase) {
    match phase
    case Start => op.cfg.incoming && !op.cfg.unidirectional && !op.work.Idle? && !op.work.Finished?
    case Killing =>
      if op.cfg.incoming then op.hasResp && !op.response.NoResponse? && !op.response.RespDone?
      else !op.request.NotSent? && !op.request.Reported?
    case Asleep => true
    case Done => true               // returned; the teardown loop goes on
    case Crashed => true
    case _ => false
  }

  predicate CancellerGoesOn(enabled: bool, op: Op, who: Who) {
    Slot(op, who).Some? ==> (Can(enabled, op, CancelStep(who)) <==> !Waits(op, Slot(op, who).value.phase))
  }

  ghost predicate Alive(enabled: bool, op: Op) {
    && CreatorGoesOn(enabled, op) && WorkGoesOn(enabled, op) && DeviceGoesOn(enabled, op)
    && ReceiversGoOn(enabled, op)
    && CancellerGoesOn(enabled, op, Sync) && CancellerGoesOn(enabled, op, Teardown)
  }

  // ---------------------------------------------------------------------- proofs

  lemma SenderAlive(enabled: bool, op: Op)
    requires OpInv(op) && !op.cfg.incoming
    ensures CreatorGoesOn(enabled, op)
  {
  }

  lemma InterruptAlive(enabled: bool, op: Op)
    requires OpInv(op) && op.cfg.incoming
    ensures CreatorGoesOn(enabled, op)
  {
  }

  lemma WorkAlive(enabled: bool, op: Op)
    requires OpInv(op)
    ensures WorkGoesOn(enabled, op)
  {
    match op.work
    case Sending(_) => SendingAlive(enabled, op);
    case Queued => QueuedAlive(enabled, op);
    case _ =>
  }

  lemma QueuedAlive(enabled: bool, op: Op)
    requires op.work.Queued?
    ensures WorkGoesOn(enabled, op)
  {
  }

  lemma SendingAlive(enabled: bool, op: Op)
    requires op.work.Sending?
    ensures WorkGoesOn(enabled, op)
  {
  }

  lemma DeviceAlive(enabled: bool, op: Op)
    ensures DeviceGoesOn(enabled, op)
  {
  }

  lemma ReceiverAlive(enabled: bool, op: Op, i: nat)
    requires OpInv(op) && i < |op.receivers|
    ensures ReceiverGoesOn(enabled, op, i)
  {
  }

  lemma CancellerAlive(enabled: bool, op: Op, who: Who)
    requires OpInv(op)
    ensures CancellerGoesOn(enabled, op, who)
  {
  }

  lemma OpAlive(enabled: bool, op: Op)
    requires OpInv(op)
    ensures Alive(enabled, op)
  {
    if op.cfg.incoming {
      InterruptAlive(enabled, op);
    } else {
      SenderAlive(enabled, op);
    }
    WorkAlive(enabled, op);
    DeviceAlive(enabled, op);
    forall i | 0 <= i < |op.receivers| ensures ReceiverGoesOn(enabled, op, i) {
      ReceiverAlive(enabled, op, i);
    }
    CancellerAlive(enabled, op, Sync);
    CancellerAlive(enabled, op, Teardown);
  }

  /**
   In every reachable state, every agent of every operation can take its next step, exactly unless it is a canceller
   that waits for a handler, a message in the host device or the last active user; and the host device, the message
   layer and the request handler can answer with any value.
   */
  lemma NobodyIsStuck(c: Conn, o: nat)
    requires Reachable(c) && o in c.ops
    ensures Alive(c.state.Enabled?, c.ops[o])
    ensures (forall s :: !ConnectionStep(s) && Can(c.state.Enabled?, c.ops[o], s) ==> Apply(c, OpStep(o, s)).Some?)
    ensures c.ops[o].creator.Holding? ==> Apply(c, TakeId(o)).Some?
    ensures if c.state.Enabled? then Apply(c, Fail).Some? && Apply(c, StartTeardown).Some?
            else c.state.Destroying? || Apply(c, Enable).Some?
  {
    ReachableInv(c);
    OpAlive(c.state.Enabled?, c.ops[o]);
    CanTakeId(c, o);
    forall s | !ConnectionStep(s) && Can(c.state.Enabled?, c.ops[o], s) ensures Apply(c, OpStep(o, s)).Some? {
      CanStep(c, o, s);
    }
  }

  lemma CanStep(c: Conn, o: nat, s: Step)
    requires o in c.ops && !ConnectionStep(s) && Can(c.state.Enabled?, c.ops[o], s)
    ensures Apply(c, OpStep(o, s)).Some?
  {
  }

  lemma CanTakeId(c: Conn, o: nat)
    requires o in c.ops && CreatorGoesOn(c.state.Enabled?, c.ops[o])
    ensures c.ops[o].creator.Holding? ==> Apply(c, TakeId(o)).Some?
  {
    TakeIdResult(c, o);
  }

  /** Messages may come in at any time; a response that nobody waits for changes nothing. */
  lemma UnknownIsDropped(c: Conn, data: seq<byte>, o: nat)
    requires Reachable(c) && WellFormedMessage(data) && IsResponse(data)
    requires forall p :: p in c.list && p in c.ops && !c.ops[p].cfg.incoming ==> c.ops[p].tag.id != MessageId(data)
    ensures Apply(c, Receive(data, o)) == Some(c.(rx := c.rx + [data]))
  {
    ReachableInv(c);
    FindOutgoingFinds(c.ops, c.list, MessageId(data));
  }
}
