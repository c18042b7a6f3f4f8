/** An operation that is completed before the host device is done with its request can be freed before that. */
module EngineLate {
  import opened Common
  import opened Errno
  import opened Engine
  import opened EngineInvariant
  import opened EngineRuns
  import opened EngineLift
  import opened EngineProgress
  import opened EngineTeardown
  import opened EngineReport

  // ------------------------------------------------------------------- ranks

  function HoldWeight(r: Receiver): nat {
    match r
    case Found(_) => 4
    case Copying(_) => 3
    case Queueing => 2
    case Putting => 1
  }

  function HoldRank(rs: seq<Receiver>): nat {
    if rs == [] then 0 else HoldWeight(rs[0]) + HoldRank(rs[1..])
  }

  function CreatorRank(c: Creator): nat {
    match c
    case Awaiting => 4
    case Cancelling => 4
    case Collecting => 3
    case Returned => 2
    case AsyncSent => 1
    case _ => 0
  }

  function SlotRank(c: Option<Cancel>): nat {
    if c.None? then 0 else 1 + PhaseRank(c)
  }

  /** What all holders of a completed operation have left to do. */
  function WindRank(op: Op): nat {
    HoldRank(op.receivers) + WorkRank(op.work) + CreatorRank(op.creator)
    + SlotRank(op.syncCancel) + SlotRank(op.teardown)
  }

  // --------------------------------------------------------- winding it down

  /** The next step of somebody who holds the operation, other than the host device. */
  function WindStep(op: Op): Step {
    if op.receivers != [] then
      match op.receivers[0]
      case Found(_) => ReceiverDecide(0)
      case Copying(_) => ReceiverCopy(0)
      case Queueing => ReceiverQueue(0)
      case Putting => ReceiverPut(0)
    else if op.work.Queued? then RunCallback
    else if op.work.Called? then WorkPutActive
    else if op.work.Dropped? then WorkPut
    else if op.syncCancel.Some? then CancelStep(Sync)
    else if op.creator.Awaiting? then CompletionSeen
    else if op.creator.Collecting? then Collect
    else if op.creator.Returned? then Destroy
    else CancelStep(Teardown)
  }

  predicate Winds(op: Op, op': Op) {
    Overtaken(op') && op'.request == op.request && WindRank(op') < WindRank(op)
  }

  lemma OvertakenFacts(dying: bool, op: Op)
    requires OpInv(op) && OpReport(dying, op) && Overtaken(op)
    ensures Final(op.errno) && !Owes(op.syncCancel) && !Owes(op.teardown)
    ensures op.receivers == [] ==> !op.work.Idle?
  {
  }

  lemma HeadUpdate(rs: seq<Receiver>, r: Receiver)
    requires rs != []
    ensures HoldRank(rs[0 := r]) == HoldRank(rs) - HoldWeight(rs[0]) + HoldWeight(r)
    ensures HoldRank(RemoveAt(rs, 0)) == HoldRank(rs) - HoldWeight(rs[0])
  {
    assert rs[0 := r][1..] == rs[1..];
    assert RemoveAt(rs, 0) == rs[1..];
  }

  /** The first receiver can move. */
  predicate HeadReady(op: Op) {
    && op.receivers != [] && |op.respBuf| == HEADER + op.cfg.respSize
    && (op.receivers[0].Found? ==> WellFormedMessage(op.receivers[0].data))
    && (op.receivers[0].Copying? ==> WellFormedMessage(op.receivers[0].data))
  }

  lemma HeadIsReady(op: Op)
    requires OpInv(op) && Overtaken(op) && op.receivers != []
    ensures HeadReady(op)
  {
  }

  lemma WindDecide(op: Op)
    requires Overtaken(op) && Final(op.errno) && HeadReady(op) && op.receivers[0].Found?
    ensures ReceiverMove(op, ReceiverDecide(0)).Some? && Winds(op, ReceiverMove(op, ReceiverDecide(0)).value.op)
  {
    assert !Wins(op, ResponseErrno(op.receivers[0].data, op.cfg.respSize));
    HeadUpdate(op.receivers, Putting);
  }

  lemma WindCopy(op: Op)
    requires Overtaken(op) && HeadReady(op) && (op.receivers[0].Copying? || op.receivers[0].Queueing?)
    ensures ReceiverMove(op, WindStep(op)).Some? && Winds(op, ReceiverMove(op, WindStep(op)).value.op)
  {
    HeadUpdate(op.receivers, if op.receivers[0].Copying? then Queueing else Putting);
  }

  lemma WindPut(op: Op)
    requires Overtaken(op) && HeadReady(op) && op.receivers[0].Putting?
    ensures ReceiverMove(op, ReceiverPut(0)).Some? && Winds(op, ReceiverMove(op, ReceiverPut(0)).value.op)
  {
    HeadUpdate(op.receivers, Putting);
  }

  lemma WindReceiver(op: Op)
    requires Overtaken(op) && Final(op.errno) && HeadReady(op)
    ensures ReceiverMove(op, WindStep(op)).Some? && AgentOf(WindStep(op)).ByReceiver? && !WindStep(op).Lookup?
    ensures Winds(op, ReceiverMove(op, WindStep(op)).value.op)
  {
    match op.receivers[0]
    case Found(_) => WindDecide(op);
    case Putting => WindPut(op);
    case _ => WindCopy(op);
  }

  lemma WindCallback(enabled: bool, op: Op)
    requires Overtaken(op) && op.work.Queued?
    ensures WorkMove(enabled, op, RunCallback).Some? && Winds(op, WorkMove(enabled, op, RunCallback).value.op)
  {
  }

  lemma WindPutActive(enabled: bool, op: Op)
    requires Overtaken(op) && op.work.Called?
    ensures WorkMove(enabled, op, WorkPutActive).Some? && Winds(op, WorkMove(enabled, op, WorkPutActive).value.op)
  {
  }

  lemma WindWorkPut(enabled: bool, op: Op)
    requires Overtaken(op) && op.work.Dropped?
    ensures WorkMove(enabled, op, WorkPut).Some? && Winds(op, WorkMove(enabled, op, WorkPut).value.op)
  {
  }

  lemma WindWork(enabled: bool, op: Op)
    requires OpInv(op) && Overtaken(op) && op.receivers == [] && !op.work.Idle? && !op.work.Finished?
    ensures WorkMove(enabled, op, WindStep(op)).Some? && AgentOf(WindStep(op)).ByWork?
    ensures Winds(op, WorkMove(enabled, op, WindStep(op)).value.op)
  {
    if op.work.Queued? {
      WindCallback(enabled, op);
    } else if op.work.Called? {
      WindPutActive(enabled, op);
    } else {
      WindWorkPut(enabled, op);
    }
  }

  lemma WindSync(op: Op)
    requires Overtaken(op) && Final(op.errno) && NoReservedResult(op) && op.active == 0 && op.creator.Cancelling?
    requires op.syncCancel.Some? && CancelOk(op, op.syncCancel) && !Sleeps(op.syncCancel) && !Owes(op.syncCancel)
    requires !op.syncCancel.value.phase.Done?
    ensures PhaseMove(op, Sync).Some? && Winds(op, PhaseMove(op, Sync).value.op)
  {
    if op.syncCancel.value.phase.Leaving? {
      WindLeave(op);
    } else {
      var op' := PhaseMove(op, Sync).value.op;
      assert op'.receivers == op.receivers && op'.work == op.work && op'.creator == op.creator;
      assert op'.teardown == op.teardown;
    }
  }

  lemma WindLeave(op: Op)
    requires Overtaken(op) && op.creator.Cancelling? && op.syncCancel.Some? && op.syncCancel.value.phase.Leaving?
    ensures PhaseMove(op, Sync).Some? && Winds(op, PhaseMove(op, Sync).value.op)
  {
  }

  lemma WindCreator(enabled: bool, op: Op)
    requires OpInv(op) && Overtaken(op) && op.receivers == [] && op.work.Finished? && op.syncCancel.None?
    requires !op.creator.Gone?
    ensures CreatorMove(enabled, op, WindStep(op)).Some? && AgentOf(WindStep(op)).ByCreator?
    ensures Winds(op, CreatorMove(enabled, op, WindStep(op)).value.op) && !WindStep(op).AssignId?
  {
    WaiterFacts(op);
    WindWaiter(op, WindStep(op));
  }

  lemma WaiterFacts(op: Op)
    requires OpInv(op) && Overtaken(op) && op.work.Finished? && op.syncCancel.None? && !op.creator.Gone?
    ensures |op.respBuf| == HEADER + op.cfg.respSize
    ensures (op.creator.Awaiting? && op.completed) || op.creator.Collecting? || op.creator.Returned?
  {
  }

  lemma WindWaiter(op: Op, s: Step)
    requires Overtaken(op) && |op.respBuf| == HEADER + op.cfg.respSize
    requires (|| (op.creator.Awaiting? && op.completed && s.CompletionSeen?)
              || (op.creator.Collecting? && s.Collect?)
              || (op.creator.Returned? && s.Destroy?))
    ensures WaiterMove(op, s).Some? && Winds(op, WaiterMove(op, s).value.op)
  {
  }

  /** Both cancellers of a finished operation only have to notice that it is. */
  lemma FinishedFacts(op: Op)
    requires OpInv(op) && Overtaken(op) && op.work.Finished?
    ensures op.active == 0 && NoReservedResult(op) && !Sleeps(op.syncCancel) && !Sleeps(op.teardown)
    ensures CancelOk(op, op.syncCancel) && CancelOk(op, op.teardown)
  {
    InvHasNoReservedResult(op);
  }

  lemma WindTeardown(op: Op)
    requires Overtaken(op) && Final(op.errno) && NoReservedResult(op) && op.active == 0
    requires op.teardown.Some? && CancelOk(op, op.teardown) && !Sleeps(op.teardown) && !Owes(op.teardown)
    requires !op.teardown.value.phase.Done?
    ensures PhaseMove(op, Teardown).Some? && Winds(op, PhaseMove(op, Teardown).value.op)
  {
    var op' := PhaseMove(op, Teardown).value.op;
    CancelShape(op, Teardown);
    assert op'.accepted == op.accepted && op'.log.winner == op.log.winner && op'.log.failed == op.log.failed;
    assert PhaseRank(op'.teardown) < PhaseRank(op.teardown);
  }

  /** Only the teardown loop's reference is left, and the loop is about to drop it. */
  predicate LastHold(op: Op) {
    && op.receivers == [] && op.work.Finished? && op.creator.Gone? && op.syncCancel.None?
    && op.teardown.Some? && op.teardown.value.phase.Done?
  }

  lemma WindMoves(dying: bool, enabled: bool, op: Op)
    requires OpInv(op) && OpReport(dying, op) && Overtaken(op) && op.kref > 0 && !LastHold(op)
    ensures Move(enabled, op, WindStep(op)).Some? && !ConnectionStep(WindStep(op))
    ensures Winds(op, Move(enabled, op, WindStep(op)).value.op)
  {
    OvertakenFacts(dying, op);
    if op.receivers != [] {
      HeadIsReady(op);
      WindReceiver(op);
    } else if !op.work.Finished? {
      WindWork(enabled, op);
    } else {
      WindRest(enabled, op);
    }
  }

  lemma WindRest(enabled: bool, op: Op)
    requires OpInv(op) && Overtaken(op) && op.kref > 0 && !LastHold(op) && Final(op.errno)
    requires op.receivers == [] && op.work.Finished? && !Owes(op.syncCancel) && !Owes(op.teardown)
    ensures Move(enabled, op, WindStep(op)).Some? && !ConnectionStep(WindStep(op))
    ensures Winds(op, Move(enabled, op, WindStep(op)).value.op)
  {
    FinishedFacts(op);
    if op.syncCancel.Some? {
      WindSync(op);
    } else if !op.creator.Gone? {
      WindCreator(enabled, op);
    } else {
      OnlyTeardownLeft(op);
      WindTeardown(op);
    }
  }

  lemma OnlyTeardownLeft(op: Op)
    requires OpInv(op) && Overtaken(op) && op.kref > 0
    requires op.receivers == [] && op.work.Finished? && op.creator.Gone?
    ensures op.teardown.Some?
  {
  }

  // -------------------------------------------------------------------- runs

  ghost predicate Sound(c: Conn) {
    ConnInv(c) && All(OpReport, c)
  }

  lemma ApplySound(c: Conn, e: Event)
    requires Sound(c) && Apply(c, e).Some?
    ensures Sound(Apply(c, e).value)
  {
    ApplyKeeps(c, e);
    ReportInductive();
    ApplyAll(OpReport, c, e);
  }

  lemma WindConn(c: Conn, o: nat)
    requires Sound(c) && o in c.ops && Overtaken(c.ops[o]) && c.ops[o].kref > 0 && !LastHold(c.ops[o])
    ensures var e := OpStep(o, WindStep(c.ops[o]));
      && Apply(c, e).Some? && Sound(Apply(c, e).value) && o in Apply(c, e).value.ops
      && Winds(c.ops[o], Apply(c, e).value.ops[o])
  {
    WindMoves(c.state.Destroying?, c.state.Enabled?, c.ops[o]);
    CanStep(c, o, WindStep(c.ops[o]));
    ApplySound(c, OpStep(o, WindStep(c.ops[o])));
  }

  /** The operation has been freed while the host device's callback for its request stands at r. */
  predicate Late(c: Conn, o: nat, r: Request) {
    o in c.ops && c.ops[o].kref == 0 && c.ops[o].request == r
  }

  lemma LastDrop(c: Conn, o: nat)
    requires ConnInv(c) && o in c.ops && Overtaken(c.ops[o]) && LastHold(c.ops[o])
    ensures Apply(c, Drop).Some? && Late(Apply(c, Drop).value, o, c.ops[o].request)
  {
    assert c.loop == Busy(o);
    LastPut(c.ops[o]);
    CanDrop(c);
    DropResult(c);
  }

  lemma LastPut(op: Op)
    requires OpInv(op) && Overtaken(op) && LastHold(op)
    ensures HoldMove(op, CancelEnd).Some?
    ensures HoldMove(op, CancelEnd).value.op.kref == 0 && HoldMove(op, CancelEnd).value.op.request == op.request
  {
  }

  lemma {:induction false} WindDown(c: Conn, o: nat) returns (es: seq<Event>)
    requires Sound(c) && o in c.ops && Overtaken(c.ops[o])
    ensures Exec(c, es).Some? && Late(Exec(c, es).value, o, c.ops[o].request)
    decreases WindRank(c.ops[o])
  {
    if c.ops[o].kref == 0 {
      es := [];
    } else if LastHold(c.ops[o]) {
      LastDrop(c, o);
      ExecCons(c, Drop, []);
      es := [Drop];
    } else {
      WindConn(c, o);
      var e := OpStep(o, WindStep(c.ops[o]));
      var rest := WindDown(Apply(c, e).value, o);
      ExecCons(c, e, rest);
      es := [e] + rest;
    }
  }

  /**
   While the host device has to report on a request or to clear it, its operation can be freed exactly if it has been
   overtaken: in every reachable state a freed one was, and from every reachable state in which it was, a run frees it
   before the host device moves on.
   */
  lemma LateIffOvertaken(c: Conn, o: nat)
    requires Reachable(c) && o in c.ops && (c.ops[o].request.InDevice? || c.ops[o].request.Clearing?)
    ensures c.ops[o].kref == 0 ==> Overtaken(c.ops[o])
    ensures (Overtaken(c.ops[o]) ==>
             exists es :: Exec(c, es).Some? && Late(Exec(c, es).value, o, c.ops[o].request))
  {
    ReachableReport(c);
    if c.ops[o].kref == 0 {
      FreedWasOvertaken(c.state.Destroying?, c.ops[o]);
    }
    if Overtaken(c.ops[o]) {
      var es := WindDown(c, o);
    }
  }

  /** In every reachable state, a request's clearing finds the operation freed exactly when its work is done and no
      receiver, creator or teardown thread holds it. */
  lemma RequestClearedLate(c: Conn, o: nat)
    requires Reachable(c) && o in c.ops && c.ops[o].request.Clearing?
    ensures (c.ops[o].kref == 0 <==>
             && c.ops[o].work.Finished? && c.ops[o].receivers == []
             && c.ops[o].creator.Gone? && c.ops[o].teardown.None?)
  {
    ReachableInv(c);
    RequestRefs(c.ops[o]);
  }

  lemma RequestRefs(op: Op)
    requires OpInv(op) && op.request.Clearing?
    ensures op.kref == 0 <==> op.work.Finished? && op.receivers == [] && op.creator.Gone? && op.teardown.None?
  {
  }
}
