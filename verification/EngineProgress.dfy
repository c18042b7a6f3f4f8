/** Progress: who still has to act on an active operation, and how often at most, whatever the schedule. */
module EngineProgress {
  import opened Common
  import opened Errno
  import opened Engine
  import opened EngineInvariant
  import opened EngineRuns
  import opened EngineSafety
  import opened EngineLift

  // ------------------------------------------------------------------ ranks

  function WorkRank(work: Work): nat {
    match work
    case Idle => 6
    case Queued => 5
    case Responding(_) => 4
    case Sending(_) => 3
    case Called => 2
    case Dropped => 1
    case Finished => 0
  }

  function CopyWeight(r: Receiver): nat {
    if r.Copying? then 2 else if r.Queueing? then 1 else 0
  }

  function CopyRank(rs: seq<Receiver>): nat {
    if rs == [] then 0 else CopyWeight(rs[0]) + CopyRank(rs[1..])
  }

  function DebtRank(c: Option<Cancel>): nat {
    if c.None? then 0 else if c.value.phase.Killing? then 2 else if c.value.phase.CQueueing? then 1 else 0
  }

  function RequestRank(r: Request): nat {
    match r
    case InDevice => 3
    case ReportWon => 2
    case Clearing => 1
    case _ => 0
  }

  function ResponseRank(r: Response): nat {
    match r
    case RespInDevice => 3
    case RespDropping => 2
    case RespClearing => 1
    case _ => 0
  }

  function StartRank(c: Creator): nat {
    if c.InActive? then 2 else if c.InArmed? then 1 else 0
  }

  function TeardownDebt(op: Op): nat {
    if op.cfg.incoming then 0 else DebtRank(op.teardown)
  }

  /** What all agents but waiting cancellers have left to do, once the result is final or if op is incoming. */
  function DrainRank(op: Op): nat {
    WorkRank(op.work) + CopyRank(op.receivers) + DebtRank(op.syncCancel) + TeardownDebt(op)
    + RequestRank(op.request) + ResponseRank(op.response) + StartRank(op.creator)
  }

  /** A receiver that still has to queue the work. */
  function FirstOwing(rs: seq<Receiver>): (i: nat)
    requires Owing(rs) > 0
    ensures i < |rs| && OwesQueue(rs[i])
  {
    if OwesQueue(rs[0]) then 0 else 1 + FirstOwing(rs[1..])
  }

  lemma {:induction false} CopyRankUpdate(rs: seq<Receiver>, i: nat, r: Receiver)
    requires i < |rs|
    ensures CopyRank(rs[i := r]) + CopyWeight(rs[i]) == CopyRank(rs) + CopyWeight(r)
  {
    if i == 0 {
      assert rs[i := r][1..] == rs[1..];
    } else {
      CopyRankUpdate(rs[1..], i - 1, r);
      assert rs[i := r][1..] == rs[1..][i - 1 := r];
    }
  }

  lemma {:induction false} CopyRankRemove(rs: seq<Receiver>, i: nat)
    requires i < |rs|
    ensures CopyRank(RemoveAt(rs, i)) + CopyWeight(rs[i]) == CopyRank(rs)
  {
    if i == 0 {
      assert RemoveAt(rs, i) == rs[1..];
    } else {
      CopyRankRemove(rs[1..], i - 1);
      assert RemoveAt(rs, i) == [rs[0]] + RemoveAt(rs[1..], i - 1);
    }
  }

  lemma {:induction false} CopyRankAppend(rs: seq<Receiver>, r: Receiver)
    ensures CopyRank(rs + [r]) == CopyRank(rs) + CopyWeight(r)
  {
    if rs == [] {
      assert rs + [r] == [r];
    } else {
      CopyRankAppend(rs[1..], r);
      assert (rs + [r])[1..] == rs[1..] + [r];
    }
  }

  lemma {:induction false} CopyRankOwing(rs: seq<Receiver>)
    ensures Owing(rs) > 0 <==> CopyRank(rs) > 0
  {
    if rs != [] {
      CopyRankOwing(rs[1..]);
    }
  }

  // ------------------------------------------------------------- who helps

  /** The result is final, or the operation is incoming. */
  predicate Decided(op: Op) {
    op.cfg.incoming || Final(op.errno)
  }

  /** Steps of agents that owe the operation something: its work, its messages inside the host device, receivers and
      cancellers that won, and the interrupt handler of a new request; whatever these steps report or return. */
  predicate Helping(op: Op, s: Step) {
    || AgentOf(s).ByWork? || AgentOf(s).ByDevice?
    || s.ReceiverCopy? || s.ReceiverQueue?
    || s.RequestArm? || s.RequestQueue?
    || (s.CancelStep? && !op.cfg.incoming && Owes(Slot(op, s.who)))
  }

  /** Nobody owes the operation anything. */
  predicate Quiet(op: Op) {
    && (op.work.Idle? || op.work.Finished?)
    && CopyRank(op.receivers) == 0 && DebtRank(op.syncCancel) == 0 && TeardownDebt(op) == 0
    && RequestRank(op.request) == 0 && ResponseRank(op.response) == 0 && StartRank(op.creator) == 0
  }

  /** The next step of the work item. */
  function WorkStep(op: Op): Step {
    match op.work
    case Queued => if op.cfg.incoming then HandlerReturns(0, true) else RunCallback
    case Responding(_) => RecordStatus
    case Sending(_) => SendResponse(ENOTCONN)
    case Called => WorkPutActive
    case _ => WorkPut
  }

  /** The next step of the host device. */
  function DeviceStep(op: Op): Step {
    match op.response
    case RespInDevice => ResponseReport
    case RespDropping => ResponsePut
    case RespClearing => ClearResponse
    case _ =>
      match op.request
      case InDevice => SendReport(0)
      case ReportWon => SendReportQueue
      case _ => ClearRequest
  }

  /** The next step of somebody who owes the operation something. */
  function Help(op: Op): Step {
    if ResponseRank(op.response) > 0 || RequestRank(op.request) > 0 then DeviceStep(op)
    else if op.creator.InActive? then RequestArm
    else if op.creator.InArmed? then RequestQueue
    else if Owing(op.receivers) > 0 then
      var i := FirstOwing(op.receivers);
      if op.receivers[i].Copying? then ReceiverCopy(i) else ReceiverQueue(i)
    else if !op.work.Idle? && !op.work.Finished? then WorkStep(op)
    else if Owes(op.syncCancel) then CancelStep(Sync)
    else CancelStep(Teardown)
  }

  lemma DeviceCanHelp(op: Op)
    requires ResponseRank(op.response) > 0 || RequestRank(op.request) > 0
    ensures DeviceMove(op, DeviceStep(op)).Some? && AgentOf(DeviceStep(op)).ByDevice?
  {
  }

  lemma WorkCanHelp(enabled: bool, op: Op)
    requires OpInv(op) && !op.work.Idle? && !op.work.Finished?
    ensures WorkMove(enabled, op, WorkStep(op)).Some? && AgentOf(WorkStep(op)).ByWork?
    ensures WorkStep(op) != SendResponse(0)
  {
  }

  /** A receiver that won has a well-formed message. */
  lemma CopierReady(op: Op, i: nat)
    requires OpInv(op) && i < |op.receivers| && op.receivers[i].Copying?
    ensures WellFormedMessage(op.receivers[i].data) && |op.respBuf| == HEADER + op.cfg.respSize
  {
  }

  lemma ReceiverCanHelp(op: Op)
    requires OpInv(op) && Owing(op.receivers) > 0
    ensures var i := FirstOwing(op.receivers);
      var s := if op.receivers[i].Copying? then ReceiverCopy(i) else ReceiverQueue(i);
      ReceiverMove(op, s).Some? && (s.ReceiverCopy? || s.ReceiverQueue?)
  {
    var i := FirstOwing(op.receivers);
    if op.receivers[i].Copying? {
      CopierReady(op, i);
    }
  }

  lemma OwerCanHelp(op: Op, who: Who)
    requires OpInv(op) && !op.cfg.incoming && Owes(Slot(op, who)) && RequestRank(op.request) == 0
    ensures PhaseMove(op, who).Some?
  {
  }

  lemma QuietButOwing(op: Op)
    requires OpInv(op) && !Quiet(op)
    requires ResponseRank(op.response) == 0 && RequestRank(op.request) == 0 && StartRank(op.creator) == 0
    requires Owing(op.receivers) == 0 && (op.work.Idle? || op.work.Finished?)
    ensures !op.cfg.incoming && (Owes(op.syncCancel) || Owes(op.teardown))
  {
    CopyRankOwing(op.receivers);
  }

  /** Unless nobody owes the operation anything, somebody who does can move. */
  lemma UnquietHasHelper(enabled: bool, op: Op)
    requires OpInv(op) && !Quiet(op)
    ensures Move(enabled, op, Help(op)).Some? && Helping(op, Help(op)) && !ConnectionStep(Help(op))
    ensures Help(op) != SendResponse(0)
  {
    if ResponseRank(op.response) > 0 || RequestRank(op.request) > 0 {
      DeviceCanHelp(op);
    } else if op.creator.InActive? || op.creator.InArmed? {
      InterruptCanHelp(enabled, op);
    } else {
      LaterHelp(enabled, op);
    }
  }

  lemma LaterHelp(enabled: bool, op: Op)
    requires OpInv(op) && !Quiet(op)
    requires ResponseRank(op.response) == 0 && RequestRank(op.request) == 0 && StartRank(op.creator) == 0
    ensures Move(enabled, op, Help(op)).Some? && Helping(op, Help(op)) && !ConnectionStep(Help(op))
    ensures Help(op) != SendResponse(0)
  {
    if Owing(op.receivers) > 0 {
      ReceiverCanHelp(op);
    } else if !op.work.Idle? && !op.work.Finished? {
      WorkCanHelp(enabled, op);
    } else {
      CancellerCanHelp(op);
    }
  }

  lemma InterruptCanHelp(enabled: bool, op: Op)
    requires op.creator.InActive? || op.creator.InArmed?
    ensures InterruptMove(enabled, op, if op.creator.InActive? then RequestArm else RequestQueue).Some?
  {
  }

  lemma CancellerCanHelp(op: Op)
    requires OpInv(op) && !Quiet(op)
    requires ResponseRank(op.response) == 0 && RequestRank(op.request) == 0 && StartRank(op.creator) == 0
    requires Owing(op.receivers) == 0 && (op.work.Idle? || op.work.Finished?)
    ensures var s := CancelStep(if Owes(op.syncCancel) then Sync else Teardown);
      CancelMove(op, s).Some? && Helping(op, s)
  {
    QuietButOwing(op);
    OwerCanHelp(op, if Owes(op.syncCancel) then Sync else Teardown);
  }

  /** An active, decided operation is owed something. */
  lemma ActiveIsUnquiet(op: Op)
    requires OpInv(op) && Decided(op) && op.active > 0
    ensures !Quiet(op)
  {
    CopyRankOwing(op.receivers);
  }

  // ------------------------------------------------------- every step counts

  /** No part of what is left to do has grown. */
  predicate Sinks(op: Op, op': Op) {
    && op'.cfg == op.cfg
    && WorkRank(op'.work) <= WorkRank(op.work)
    && CopyRank(op'.receivers) <= CopyRank(op.receivers)
    && DebtRank(op'.syncCancel) <= DebtRank(op.syncCancel) && TeardownDebt(op') <= TeardownDebt(op)
    && RequestRank(op'.request) <= RequestRank(op.request)
    && ResponseRank(op'.response) <= ResponseRank(op.response)
    && StartRank(op'.creator) <= StartRank(op.creator)
  }

  /** And some part has shrunk. */
  predicate Lowers(op: Op, op': Op) {
    Sinks(op, op') && DrainRank(op') < DrainRank(op)
  }

  lemma CreatorSinks(enabled: bool, op: Op, s: Step)
    requires !op.creator.Armed? && CreatorMove(enabled, op, s).Some?
    ensures Sinks(op, CreatorMove(enabled, op, s).value.op)
  {
  }

  lemma SentLowers(op: Op, status: int)
    requires SentMove(op, status).Some?
    ensures Lowers(op, SentMove(op, status).value.op)
  {
  }

  lemma RequestLowers(op: Op, s: Step)
    requires (op.request.ReportWon? && s.SendReportQueue?) || (op.request.Clearing? && s.ClearRequest?)
    ensures DeviceMove(op, s).Some? && Lowers(op, DeviceMove(op, s).value.op)
  {
  }

  lemma ResponseReportLowers(op: Op)
    requires op.response.RespInDevice?
    ensures Lowers(op, PutActive(op.(response := RespDropping)).op)
  {
  }

  lemma ResponseLowers(op: Op, s: Step)
    requires (op.response.RespDropping? && s.ResponsePut?) || (op.response.RespClearing? && s.ClearResponse?)
    ensures DeviceMove(op, s).Some? && Lowers(op, DeviceMove(op, s).value.op)
  {
  }

  lemma DeviceLowers(op: Op, s: Step)
    requires DeviceMove(op, s).Some?
    ensures Lowers(op, DeviceMove(op, s).value.op)
  {
    match s
    case SendReport(status) => SentLowers(op, status);
    case SendReportQueue => RequestLowers(op, s);
    case ClearRequest => RequestLowers(op, s);
    case ResponseReport => ResponseReportLowers(op);
    case _ => ResponseLowers(op, s);
  }

  lemma LookupSinks(op: Op, s: Step)
    requires ReceiverMove(op, s).Some? && (s.Lookup? || s.ReceiverPut?)
    ensures Sinks(op, ReceiverMove(op, s).value.op)
  {
    if s.Lookup? {
      CopyRankAppend(op.receivers, Found(s.data));
    } else {
      CopyRankRemove(op.receivers, s.i);
    }
  }

  lemma LoserSinks(op: Op, s: Step)
    requires Final(op.errno) && ReceiverMove(op, s).Some? && s.ReceiverDecide?
    ensures Sinks(op, ReceiverMove(op, s).value.op)
  {
    assert !Wins(op, ResponseErrno(op.receivers[s.i].data, op.cfg.respSize));
    CopyRankUpdate(op.receivers, s.i, Putting);
  }

  lemma CopyLowers(op: Op, s: Step)
    requires ReceiverMove(op, s).Some? && (s.ReceiverCopy? || s.ReceiverQueue?)
    ensures Lowers(op, ReceiverMove(op, s).value.op)
  {
    CopyRankUpdate(op.receivers, s.i, if s.ReceiverCopy? then Queueing else Putting);
  }

  lemma ReceiverSinks(op: Op, s: Step)
    requires Final(op.errno) && ReceiverMove(op, s).Some?
    ensures Sinks(op, ReceiverMove(op, s).value.op)
  {
    if s.Lookup? || s.ReceiverPut? {
      LookupSinks(op, s);
    } else if s.ReceiverDecide? {
      LoserSinks(op, s);
    } else {
      CopyLowers(op, s);
    }
  }

  /** A step that changes only the work, the creator and what no rank looks at. */
  lemma WorkOnlyLowers(op: Op, op': Op)
    requires op'.cfg == op.cfg && op'.receivers == op.receivers && op'.request == op.request
    requires op'.response == op.response && op'.syncCancel == op.syncCancel && op'.teardown == op.teardown
    requires WorkRank(op'.work) < WorkRank(op.work) && StartRank(op'.creator) <= StartRank(op.creator)
    ensures Lowers(op, op')
  {
  }

  lemma CallbackLowers(enabled: bool, op: Op)
    requires WorkMove(enabled, op, RunCallback).Some?
    ensures Lowers(op, WorkMove(enabled, op, RunCallback).value.op)
  {
    WorkOnlyLowers(op, WorkMove(enabled, op, RunCallback).value.op);
  }

  lemma HandlerLowers(enabled: bool, op: Op, s: Step)
    requires WorkMove(enabled, op, s).Some? && (s.HandlerReturns? || s.NoHandler? || s.RecordStatus?)
    ensures Lowers(op, WorkMove(enabled, op, s).value.op)
  {
  }

  lemma PutActiveLowers(op: Op)
    requires op.work.Called?
    ensures Lowers(op, PutActive(op.(work := Dropped)).op)
  {
  }

  lemma WorkEndLowers(enabled: bool, op: Op, s: Step)
    requires WorkMove(enabled, op, s).Some? && (s.WorkPut? || s.SendResponse?)
    requires !(enabled && s == SendResponse(0))
    ensures Lowers(op, WorkMove(enabled, op, s).value.op)
  {
  }

  lemma WorkLowers(enabled: bool, op: Op, s: Step)
    requires WorkMove(enabled, op, s).Some? && !(enabled && s == SendResponse(0))
    ensures Lowers(op, WorkMove(enabled, op, s).value.op)
  {
    match s
    case RunCallback => CallbackLowers(enabled, op);
    case WorkPutActive => PutActiveLowers(op);
    case WorkPut => WorkEndLowers(enabled, op, s);
    case SendResponse(_) => WorkEndLowers(enabled, op, s);
    case _ => HandlerLowers(enabled, op, s);
  }

  lemma InterruptLowers(enabled: bool, op: Op, s: Step)
    requires InterruptMove(enabled, op, s).Some? && (s.RequestArm? || s.RequestQueue?)
    ensures Lowers(op, InterruptMove(enabled, op, s).value.op)
  {
  }

  lemma InterruptSinks(op: Op, s: Step)
    requires InterruptMove(false, op, s).Some?
    ensures Sinks(op, InterruptMove(false, op, s).value.op)
  {
  }

  lemma HoldSinks(op: Op, s: Step)
    requires HoldMove(op, s).Some?
    ensures Sinks(op, HoldMove(op, s).value.op)
  {
  }

  function PhaseDebt(phase: Phase): nat {
    DebtRank(Some(Cancel(0, phase)))
  }

  /** op1 is op with some of its work done, and the canceller moves on. */
  lemma PhaseSinks(op: Op, op1: Op, who: Who, phase: Phase)
    requires Slot(op1, who).Some? && op1.cfg == op.cfg && op1.receivers == op.receivers
    requires WorkRank(op1.work) <= WorkRank(op.work)
    requires op1.syncCancel == op.syncCancel && op1.teardown == op.teardown
    requires op1.request == op.request && op1.response == op.response && op1.creator == op.creator
    requires op.cfg.incoming || PhaseDebt(phase) <= DebtRank(Slot(op, who))
    requires op.cfg.incoming ==> who.Teardown?
    ensures Sinks(op, SetPhase(op1, who, phase))
    ensures !op.cfg.incoming && PhaseDebt(phase) < DebtRank(Slot(op, who)) ==> Lowers(op, SetPhase(op1, who, phase))
  {
  }

  lemma DecideSinks(op: Op, who: Who)
    requires NoReservedResult(op) && Decided(op) && Slot(op, who).Some? && PhaseMove(op, who).Some?
    requires op.cfg.incoming ==> who.Teardown?
    requires Slot(op, who).value.phase.Start? || Slot(op, who).value.phase.Flushed?
    ensures Sinks(op, PhaseMove(op, who).value.op)
  {
    var c := Slot(op, who).value;
    var won := Wins(op, c.errno);
    if c.phase.Start? && op.cfg.incoming {
      PhaseSinks(op, op, who, if op.cfg.unidirectional then Counting else Flushed);
    } else if op.cfg.incoming {
      PhaseSinks(op, Early(Decide(op, c.errno), op.errno == EBADR), who, if won then Counting else Killing);
    } else {
      PhaseSinks(op, Decide(op, c.errno), who, Counting);
    }
  }

  lemma KillSinks(op: Op, who: Who)
    requires Slot(op, who).Some? && PhaseMove(op, who).Some? && (op.cfg.incoming ==> who.Teardown?)
    requires Slot(op, who).value.phase.Killing? || Slot(op, who).value.phase.CQueueing?
    ensures Sinks(op, PhaseMove(op, who).value.op)
    ensures !op.cfg.incoming ==> Lowers(op, PhaseMove(op, who).value.op)
  {
    if Slot(op, who).value.phase.CQueueing? {
      PhaseSinks(op, QueueWork(op), who, Counting);
    } else {
      PhaseSinks(op, op, who, if !op.cfg.incoming then CQueueing else if op.hasResp then Counting else Crashed);
    }
  }

  lemma WaitSinks(op: Op, who: Who)
    requires Slot(op, who).Some? && PhaseMove(op, who).Some? && (op.cfg.incoming ==> who.Teardown?)
    requires Slot(op, who).value.phase.Counting? || Slot(op, who).value.phase.Prepared?
    ensures Sinks(op, PhaseMove(op, who).value.op)
  {
    if Slot(op, who).value.phase.Counting? {
      PhaseSinks(op, op.(waiters := op.waiters + 1), who, Prepared);
    } else {
      PhaseSinks(op, op, who, if op.active != 0 then Asleep else Leaving);
    }
  }

  lemma LeaveSinks(op: Op, who: Who)
    requires Slot(op, who).Some? && Slot(op, who).value.phase.Leaving? && (op.cfg.incoming ==> who.Teardown?)
    ensures PhaseMove(op, who).Some? && Sinks(op, PhaseMove(op, who).value.op)
  {
    if who.Teardown? {
      PhaseSinks(op, op.(waiters := op.waiters - 1), who, Done);
    } else {
      SyncLeaveSinks(op);
    }
  }

  lemma SyncLeaveSinks(op: Op)
    requires op.syncCancel.Some? && op.syncCancel.value.phase.Leaving? && !op.cfg.incoming
    ensures PhaseMove(op, Sync).Some? && Sinks(op, PhaseMove(op, Sync).value.op)
  {
  }

  lemma CancelSinks(op: Op, s: Step)
    requires NoReservedResult(op) && Decided(op) && (op.cfg.incoming ==> op.syncCancel.None?)
    requires CancelMove(op, s).Some?
    ensures Sinks(op, CancelMove(op, s).value.op)
  {
    var phase := Slot(op, s.who).value.phase;
    if phase.Start? || phase.Flushed? {
      DecideSinks(op, s.who);
    } else if phase.Killing? || phase.CQueueing? {
      KillSinks(op, s.who);
    } else if phase.Leaving? {
      LeaveSinks(op, s.who);
    } else {
      WaitSinks(op, s.who);
    }
  }

  lemma DecidedFacts(op: Op)
    requires OpInv(op) && Decided(op)
    ensures !op.creator.Armed?
    ensures op.cfg.incoming ==> op.syncCancel.None? && op.receivers == []
    ensures !op.cfg.incoming ==> !op.work.Sending? && !op.creator.InCreated?
    ensures !op.cfg.incoming ==> !op.creator.InActive? && !op.creator.InArmed?
  {
  }

  /** Where an operation cannot become active again: it is outgoing and decided, or the connection is not enabled. */
  predicate Settled(enabled: bool, op: Op) {
    if op.cfg.incoming then !enabled else Final(op.errno)
  }

  /** No step of any agent puts off a settled operation. */
  lemma MoveSinks(enabled: bool, op: Op, s: Step)
    requires OpInv(op) && Settled(enabled, op) && Move(enabled, op, s).Some?
    ensures Sinks(op, Move(enabled, op, s).value.op)
  {
    DecidedFacts(op);
    InvHasNoReservedResult(op);
    match AgentOf(s)
    case ByCreator => CreatorSinks(enabled, op, s);
    case ByDevice => DeviceLowers(op, s);
    case ByReceiver => if !op.cfg.incoming { ReceiverSinks(op, s); }
    case ByWork => WorkLowers(enabled, op, s);
    case ByInterrupt => if op.cfg.incoming { InterruptSinks(op, s); }
    case ByCanceller => CancelSinks(op, s);
    case ByHold => HoldSinks(op, s);
  }

  /** Each step of somebody who owes the operation something leaves less to do. */
  lemma HelpingLowers(enabled: bool, op: Op, s: Step)
    requires Helping(op, s) && Move(enabled, op, s).Some? && !(enabled && s == SendResponse(0))
    ensures Lowers(op, Move(enabled, op, s).value.op)
  {
    match AgentOf(s)
    case ByDevice => DeviceLowers(op, s);
    case ByReceiver => CopyLowers(op, s);
    case ByWork => WorkLowers(enabled, op, s);
    case ByInterrupt => InterruptLowers(enabled, op, s);
    case ByCanceller => KillSinks(op, s.who);
    case _ =>
  }

  /** The step brings op nearer to being inactive. */
  predicate Nearer(op: Op, op': Op) {
    DrainRank(op') < DrainRank(op)
  }

  /**
   No canceller sleeps forever: an active operation whose result is final, and any active incoming one, has work
   pending, a winner about to queue it, or a message in the host device, and that agent can move now and brings the
   operation nearer to being inactive.
   */
  lemma ActiveHasHelper(enabled: bool, op: Op)
    requires OpInv(op) && Decided(op) && op.active > 0
    ensures Move(enabled, op, Help(op)).Some? && Helping(op, Help(op)) && !ConnectionStep(Help(op))
    ensures Nearer(op, Move(enabled, op, Help(op)).value.op)
  {
    ActiveIsUnquiet(op);
    UnquietHasHelper(enabled, op);
    HelpingLowers(enabled, op, Help(op));
  }

  /** In every reachable state a sleeping canceller has such a helper. */
  lemma SleeperHasHelper(c: Conn, o: nat, who: Who)
    requires Reachable(c) && o in c.ops && Sleeps(Slot(c.ops[o], who))
    ensures Move(c.state.Enabled?, c.ops[o], Help(c.ops[o])).Some? && Helping(c.ops[o], Help(c.ops[o]))
    ensures Nearer(c.ops[o], Move(c.state.Enabled?, c.ops[o], Help(c.ops[o])).value.op)
  {
    ReachableInv(c);
    SleeperIsFinal(c.ops[o], who);
    ActiveHasHelper(c.state.Enabled?, c.ops[o]);
  }

  lemma SleeperIsFinal(op: Op, who: Who)
    requires OpInv(op) && Sleeps(Slot(op, who))
    ensures op.active > 0 && Decided(op)
  {
  }

  // ------------------------------------------------------ under any schedule

  /** The event is a step on o of somebody who owes it something. */
  predicate Helped(c: Conn, e: Event, o: nat) {
    e.OpStep? && e.o == o && o in c.ops && Helping(c.ops[o], e.s)
  }

  /** o is outgoing and decided, or incoming on a connection that is being destroyed. */
  predicate SettledAt(c: Conn, o: nat) {
    o in c.ops && (if c.ops[o].cfg.incoming then c.state.Destroying? else Final(c.ops[o].errno))
  }

  lemma StepResult(c: Conn, o: nat, s: Step)
    requires Apply(c, OpStep(o, s)).Some?
    ensures o in c.ops && Move(c.state.Enabled?, c.ops[o], s).Some?
    ensures o in Apply(c, OpStep(o, s)).value.ops
    ensures Apply(c, OpStep(o, s)).value.ops[o] == Move(c.state.Enabled?, c.ops[o], s).value.op
  {
  }

  lemma HelpedLowers(c: Conn, e: Event, o: nat)
    requires ConnInv(c) && SettledAt(c, o) && Apply(c, e).Some? && Helped(c, e, o)
    ensures o in Apply(c, e).value.ops && Lowers(c.ops[o], Apply(c, e).value.ops[o])
  {
    StepResult(c, o, e.s);
    NoLateResponse(c.ops[o], e.s, c.state.Enabled?);
    HelpingLowers(c.state.Enabled?, c.ops[o], e.s);
  }

  lemma NoLateResponse(op: Op, s: Step, enabled: bool)
    requires OpInv(op) && Settled(enabled, op) && Move(enabled, op, s).Some?
    ensures !(enabled && s == SendResponse(0))
  {
    DecidedFacts(op);
    if s.SendResponse? {
      assert WorkMove(enabled, op, s).Some? && op.work.Sending?;
    }
  }

  lemma StepsSink(dying: bool, enabled: bool, op: Op, op': Op)
    requires Settled(enabled, op) && StepsTo(dying, enabled, op, op')
    ensures Sinks(op, op')
  {
    var s :| StepOk(dying, enabled, op, s) && op' == Move(enabled, op, s).value.op;
    MoveSinks(enabled, op, s);
  }

  lemma SinksRank(op: Op, op': Op)
    requires Sinks(op, op')
    ensures DrainRank(op') <= DrainRank(op)
  {
  }

  /** A settled operation stays settled, and what is left to do on it never grows. */
  lemma ApplySinks(c: Conn, e: Event, o: nat)
    requires ConnInv(c) && SettledAt(c, o) && Apply(c, e).Some?
    ensures var c' := Apply(c, e).value;
      && SettledAt(c', o) && Sinks(c.ops[o], c'.ops[o])
      && DrainRank(c'.ops[o]) + Bit(Helped(c, e, o)) <= DrainRank(c.ops[o])
  {
    ApplyLater(c, e, o);
    StaysDying(c, e);
    var op, op' := c.ops[o], Apply(c, e).value.ops[o];
    if Helped(c, e, o) {
      HelpedLowers(c, e, o);
    } else {
      ApplySteps(c, e, o);
      if op' != op {
        StepsSink(c.state.Destroying?, c.state.Enabled?, op, op');
      }
      SinksRank(op, op');
    }
  }

  /** The steps of a run on o by agents that owed it something. */
  function Helps(c: Conn, es: seq<Event>, o: nat): nat
    decreases |es|
  {
    if es == [] || Apply(c, es[0]).None? then 0
    else Bit(Helped(c, es[0], o)) + Helps(Apply(c, es[0]).value, es[1..], o)
  }

  /**
   Over every run, whatever the schedule, what is left to do on a settled operation never grows, and each step of an
   agent that owes it something uses some of it up.
   */
  lemma {:induction false} DrainBounded(c: Conn, es: seq<Event>, o: nat)
    requires ConnInv(c) && SettledAt(c, o) && Exec(c, es).Some?
    ensures var c' := Exec(c, es).value;
      && ConnInv(c') && SettledAt(c', o)
      && DrainRank(c'.ops[o]) + Helps(c, es, o) <= DrainRank(c.ops[o])
    decreases |es|
  {
    if es != [] {
      ApplySinks(c, es[0], o);
      ApplyKeeps(c, es[0]);
      DrainBounded(Apply(c, es[0]).value, es[1..], o);
    }
  }

  // ------------------------------------------------------------------- picks

  /** Operations that the loop may still pick. */
  function Pickable(c: Conn): int {
    |c.list| - Bit(c.loop.Busy? && c.loop.op in c.list)
  }

  lemma LoopOrList(c: Conn, e: Event)
    requires ConnInv(c) && c.state.Destroying? && Apply(c, e).Some? && !e.Pick? && !e.Drop? && !e.EndLoop?
    ensures Apply(c, e).value.loop == c.loop
  {
  }

  lemma ApplyPicks(c: Conn, e: Event)
    requires ConnInv(c) && c.state.Destroying? && Apply(c, e).Some?
    ensures Pickable(Apply(c, e).value) + Bit(e.Pick?) <= Pickable(c)
  {
    var c' := Apply(c, e).value;
    if e.Pick? {
      PickResult(c);
    } else if e.Drop? {
      DroppedIsOff(c);
    } else if !e.EndLoop? {
      LoopOrList(c, e);
      ApplyShrinks(c, e);
      ApplyKeeps(c, e);
      if c.loop.Busy? && c.loop.op in c.list && c.loop.op !in c'.list {
        NoDuplicatesSubset(c'.list, c.list, c.loop.op);
      }
    }
  }

  function Picks(es: seq<Event>): nat {
    if es == [] then 0 else Bit(es[0].Pick?) + Picks(es[1..])
  }

  lemma {:induction false} PicksLeft(c: Conn, es: seq<Event>)
    requires ConnInv(c) && c.state.Destroying? && Exec(c, es).Some?
    ensures Pickable(Exec(c, es).value) + Picks(es) <= Pickable(c)
    decreases |es|
  {
    if es != [] {
      ApplyPicks(c, es[0]);
      ApplyKeeps(c, es[0]);
      StaysDying(c, es[0]);
      PicksLeft(Apply(c, es[0]).value, es[1..]);
    }
  }

  /** Over every run, the cancel loop goes round at most once for each operation on the list. */
  lemma PicksBounded(c: Conn, es: seq<Event>)
    requires Reachable(c) && c.state.Destroying? && Exec(c, es).Some?
    ensures Picks(es) <= |c.list|
  {
    ReachableInv(c);
    ExecKeeps(c, es);
    PicksLeft(c, es);
    PickableNat(Exec(c, es).value);
  }

  lemma PickableNat(c: Conn)
    ensures Pickable(c) >= 0
  {
  }
}
