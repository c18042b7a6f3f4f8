/**
 The operation engine as a step machine.

 Every operation carries the program counters of the agents that work on it: its
 creator, the receivers that looked it up, the two possible cancellers, its work item
 and the messages it has inside the host device.  One event is one spinlock section
 (or one other atomic action) of one agent, and any agent may move next.
 */
module Engine {
  import opened Common
  import opened Errno

  const HEADER := 8     // sizeof(struct gb_operation_msg_hdr)

  const CYCLES := 0x1_0000_0000   // values of the 32-bit op_cycle

  datatype ConnState = Disabled | Enabled | Error | Destroying

  /** The thread that created the operation (for an incoming one: the receive interrupt). */
  datatype Creator =
    | Holding                       // created, nothing sent
    | Numbered                      // id assigned
    | Armed                         // result is -EINPROGRESS
    | Refused                       // request_send returned an error
    | AsyncSent                     // asynchronous: the callback drops the reference
    | Awaiting                      // synchronous: waits for the completion
    | Cancelling                    // synchronous: inside gb_operation_cancel
    | Collecting                    // synchronous: about to read the result
    | Returned                      // result read, response copied out
    | InCreated | InActive | InArmed
    | Gone

  /** gb_operation_work. */
  datatype Work =
    | Idle | Queued
    | Responding(status: int)       // incoming: the handler returned status
    | Sending(status: int)          // incoming: result recorded, response to be sent
    | Called                        // about to put_active
    | Dropped                       // about to put
    | Finished

  /** The request inside the host device, whose callback clears the message after its report. */
  datatype Request = NotSent | InDevice | ReportWon | Clearing | Reported

  /** The response of an incoming operation inside the host device. */
  datatype Response = NoResponse | RespInDevice | RespDropping | RespClearing | RespDone

  /** One run of gb_connection_recv_response that has found this operation. */
  datatype Receiver =
    | Found(data: seq<byte>)
    | Copying(data: seq<byte>)      // won the result
    | Queueing                      // response copied
    | Putting

  /** gb_operation_cancel and gb_operation_cancel_incoming. */
  datatype Phase =
    | Start | Flushed | Killing | CQueueing | Counting
    | Prepared | Asleep | Leaving | Done
    | Crashed                       // cancelled a response that does not exist

  datatype Cancel = Cancel(errno: int, phase: Phase)

  datatype Who = Sync | Teardown

  /** Fixed when the operation is created. */
  datatype Config = Config(
    incoming: bool,
    unidirectional: bool,
    sync: bool,
    respSize: nat,                  // payload size of the response buffer
    original: seq<byte>)            // history: first contents of the caller's buffer

  datatype Tag = Tag(
    id: int,
    cycle: int)                     // number of the send the id was taken for

  /** The operation id and the status byte in the header of a response that is sent. */
  datatype Answer = Answer(id: int, status: byte)

  /** History, never read by a step. */
  datatype Log = Log(
    wins: nat,                      // result_set calls that recorded a final result
    queueCalls: nat,                // queue_work calls
    runs: nat,                      // callback or handler runs
    frees: nat,                     // times the reference count reached zero
    winner: Option<seq<byte>>,      // response message that won the result
    outcome: Option<int>,           // value gb_operation_sync_timeout returns
    early: bool,                    // teardown decided before the result was -EINPROGRESS
    failed: bool,                   // the report of a send error won
    handled: Option<int>,           // status that the request handler's result is recorded from
    answer: Option<Answer>)         // header of the response that the host device took

  datatype Op = Op(
    cfg: Config,
    tag: Tag,
    errno: int,
    kref: int,
    active: int,
    waiters: int,
    creator: Creator,
    inflight: bool,                 // the reference that the work item drops is held
    accepted: bool,                 // the host device accepted the request
    work: Work,
    request: Request,
    response: Response,
    hasResp: bool,                  // operation->response is not NULL
    receivers: seq<Receiver>,
    syncCancel: Option<Cancel>,
    teardown: Option<Cancel>,
    completed: bool,                // completion signalled
    respBuf: seq<byte>,             // operation->response, header included
    user: seq<byte>,                // buffer of the caller of gb_operation_sync_timeout
    log: Log)

  /** What a step does to connection->operations. */
  datatype Links = Keep | Add | Remove

  datatype Effect = Effect(op: Op, links: Links)

  // ---------------------------------------------------------------- sections

  /** gb_operation_result_set: the new errno, and whether the caller's result was recorded. */
  function ResultSet(errno: int, result: int): (int, bool) {
    if result == EINPROGRESS then
      (if errno == EBADR then result else EILSEQ, true)
    else
      var final := if result == EBADR then EILSEQ else result;
      (if errno == EINPROGRESS then final else errno, errno == EINPROGRESS)
  }

  /** A result_set with a final result, recording a win. */
  function Decide(op: Op, result: int): Op {
    var (errno, won) := ResultSet(op.errno, result);
    op.(errno := errno, log := op.log.(wins := if won then op.log.wins + 1 else op.log.wins))
  }

  predicate Wins(op: Op, result: int) {
    ResultSet(op.errno, result).1
  }

  /** gb_operation_get_active once the state check has passed. */
  function GetActive(op: Op): Effect {
    Effect(op.(active := op.active + 1), if op.active == 0 then Add else Keep)
  }

  /** gb_operation_put_active. */
  function PutActive(op: Op): Effect {
    var op' := op.(active := op.active - 1);
    if op'.active == 0 then
      Effect(if op'.waiters != 0 then Wake(op') else op', Remove)
    else
      Effect(op', Keep)
  }

  /** wake_up: every sleeper checks its condition again. */
  function Wake(op: Op): Op {
    op.(syncCancel := WakeOne(op.syncCancel), teardown := WakeOne(op.teardown))
  }

  function WakeOne(c: Option<Cancel>): Option<Cancel> {
    if c.Some? && c.value.phase.Asleep? then Some(c.value.(phase := Prepared)) else c
  }

  /** gb_operation_put. */
  function Put(op: Op): Op {
    op.(kref := op.kref - 1,
        log := op.log.(frees := if op.kref == 1 then op.log.frees + 1 else op.log.frees))
  }

  function Get(op: Op): Op {
    op.(kref := op.kref + 1)
  }

  /** queue_work on the operation's work item. */
  function QueueWork(op: Op): Op {
    op.(log := op.log.(queueCalls := op.log.queueCalls + 1),
        work := if op.work.Idle? then Queued else op.work)
  }

  // --------------------------------------------------------------- messages

  predicate WellFormedMessage(data: seq<byte>) {
    |data| >= HEADER && MessageSize(data) <= |data|
  }

  function MessageSize(data: seq<byte>): u16
    requires |data| >= HEADER
  {
    Le16(data[0], data[1])
  }

  function MessageId(data: seq<byte>): u16
    requires |data| >= HEADER
  {
    Le16(data[2], data[3])
  }

  predicate IsResponse(data: seq<byte>)
    requires |data| >= HEADER
  {
    data[4] >= 0x80
  }

  /** The result that a response gives its operation. */
  function ResponseErrno(data: seq<byte>, respSize: nat): int
    requires |data| >= HEADER
  {
    var errno := StatusMap(data[5]);
    if errno == 0 && MessageSize(data) != HEADER + respSize then EMSGSIZE else errno
  }

  /** memcpy of the response into the response buffer. */
  function CopyResponse(buf: seq<byte>, data: seq<byte>, respSize: nat): seq<byte>
    requires WellFormedMessage(data) && |buf| == HEADER + respSize
  {
    var size := if ResponseErrno(data, respSize) != 0 then HEADER else MessageSize(data);
    data[..size] + buf[size..]
  }

  // ------------------------------------------------------------ local events

  datatype Step =
    // creator of an outgoing operation
    | AssignId(cycle: int)
    | Arm
    | HandOver(ret: int)                 // get, get_active, message_send and its unwinding
    | CompletionSeen
    | GiveUp(interrupted: bool)          // signal or timeout: enter gb_operation_cancel
    | Collect
    | Destroy
    // host device reports on the request
    | SendReport(status: int)
    | SendReportQueue
    | ClearRequest                       // the callback writes to the message once more
    // receivers
    | Lookup(data: seq<byte>)
    | ReceiverDecide(i: nat)
    | ReceiverCopy(i: nat)
    | ReceiverQueue(i: nat)
    | ReceiverPut(i: nat)
    // work item
    | RunCallback
    | HandlerReturns(status: int, hasResponse: bool)
    | NoHandler
    | RecordStatus
    | SendResponse(ret: int)
    | WorkPutActive
    | WorkPut
    | ResponseReport
    | ResponsePut
    | ClearResponse
    // receive interrupt of an incoming request
    | RequestActivate
    | RequestArm
    | RequestQueue
    // cancellers
    | CancelBegin(errno: int)            // teardown picks the operation and takes a reference
    | CancelStep(who: Who)
    | SpuriousWake(who: Who)
    | CancelEnd                          // teardown drops its reference

  /** Results that callers other than request_send may pass to result_set. */
  predicate ErrorResult(errno: int) {
    errno != 0 && errno != EINPROGRESS
  }

  function Slot(op: Op, who: Who): Option<Cancel> {
    match who
    case Sync => op.syncCancel
    case Teardown => op.teardown
  }

  function SetPhase(op: Op, who: Who, phase: Phase): Op
    requires Slot(op, who).Some?
  {
    match who
    case Sync => op.(syncCancel := Some(op.syncCancel.value.(phase := phase)))
    case Teardown => op.(teardown := Some(op.teardown.value.(phase := phase)))
  }

  function Keeping(op: Op): Option<Effect> {
    Some(Effect(op, Keep))
  }

  /** gb_operation_cancel and gb_operation_cancel_incoming. */
  function CancelMove(op: Op, s: Step): Option<Effect> {
    if s.CancelStep? && Slot(op, s.who).Some? then PhaseMove(op, s.who) else None
  }

  function PhaseMove(op: Op, who: Who): Option<Effect>
    requires Slot(op, who).Some?
  {
    var c := Slot(op, who).value;
    match c.phase
    case Start =>
      if !op.cfg.incoming then
        Keeping(SetPhase(Decide(op, c.errno), who,
                         if Wins(op, c.errno) then Killing else Counting))
      else if op.cfg.unidirectional then
        Keeping(SetPhase(op, who, Counting))
      else if op.work.Idle? || op.work.Finished? then       // flush_work
        Keeping(SetPhase(op, who, Flushed))
      else None
    case Flushed =>
      if op.cfg.incoming then
        Keeping(SetPhase(Early(Decide(op, c.errno), op.errno == EBADR), who,
                         if Wins(op, c.errno) then Counting else Killing))
      else None
    case Killing =>                                         // message_cancel waits for the report
      if op.cfg.incoming then
        if !op.hasResp then Keeping(SetPhase(op, who, Crashed))
        else if op.response.NoResponse? || op.response.RespDone?
        then Keeping(SetPhase(op, who, Counting)) else None
      else
        if op.request.NotSent? || op.request.Reported?
        then Keeping(SetPhase(op, who, CQueueing)) else None
    case CQueueing =>
      Keeping(SetPhase(QueueWork(op), who, Counting))
    case Counting =>
      Keeping(SetPhase(op.(waiters := op.waiters + 1), who, Prepared))
    case Prepared =>
      Keeping(SetPhase(op, who, if op.active != 0 then Asleep else Leaving))
    case Asleep => None
    case Leaving =>
      var op' := SetPhase(op.(waiters := op.waiters - 1), who, Done);
      Keeping(if who.Sync? then op'.(syncCancel := None, creator := Collecting) else op')
    case Done => None
    case Crashed => None
  }

  function Early(op: Op, early: bool): Op {
    op.(log := op.log.(early := early))
  }

  /** gb_connection_recv_response on the operation it found. */
  function ReceiverMove(op: Op, s: Step): Option<Effect> {
    match s
    case Lookup(data) =>
      if !op.cfg.incoming && WellFormedMessage(data) && MessageId(data) == op.tag.id
      then Keeping(Get(op).(receivers := op.receivers + [Found(data)])) else None
    case ReceiverDecide(i) =>
      if i < |op.receivers| && op.receivers[i].Found? && WellFormedMessage(op.receivers[i].data) then
        var data := op.receivers[i].data;
        var result := ResponseErrno(data, op.cfg.respSize);
        var won := Wins(op, result);
        var op' := Decide(op, result);
        Keeping(op'.(receivers := op.receivers[i := if won then Copying(data) else Putting],
                     log := op'.log.(winner := if won then Some(data) else op.log.winner)))
      else None
    case ReceiverCopy(i) =>
      if i < |op.receivers| && op.receivers[i].Copying? && WellFormedMessage(op.receivers[i].data)
         && |op.respBuf| == HEADER + op.cfg.respSize then
        Keeping(op.(receivers := op.receivers[i := Queueing],
                    respBuf := CopyResponse(op.respBuf, op.receivers[i].data, op.cfg.respSize)))
      else None
    case ReceiverQueue(i) =>
      if i < |op.receivers| && op.receivers[i].Queueing?
      then Keeping(QueueWork(op).(receivers := op.receivers[i := Putting])) else None
    case ReceiverPut(i) =>
      if i < |op.receivers| && op.receivers[i].Putting?
      then Keeping(Put(op).(receivers := RemoveAt(op.receivers, i))) else None
    case _ => None
  }

  /** gb_operation_request_send from the extra reference on, as one step. */
  function HandOverMove(enabled: bool, op: Op, ret: int): Option<Effect> {
    if !enabled then
      if ret == ENOTCONN then Keeping(op.(creator := Refused, log := op.log.(outcome := Some(ret)))) else None
    else if ret != 0 then Keeping(op.(creator := Refused, log := op.log.(outcome := Some(ret))))
    else
      var e := GetActive(Get(op));
      Some(e.(op := e.op.(inflight := true, accepted := true, request := InDevice,
                          creator := if op.cfg.sync then Awaiting else AsyncSent)))
  }

  /** gb_operation_response_send after the result has been recorded. */
  function SendResponseMove(enabled: bool, op: Op, status: int, ret: int): Option<Effect> {
    if !enabled then
      if ret == ENOTCONN then Keeping(op.(work := Called)) else None
    else if ret != 0 then Keeping(op.(work := Called))
    else
      var e := GetActive(Get(op));
      Some(e.(op := e.op.(response := RespInDevice, work := Called,
                          log := op.log.(answer := Some(Answer(op.tag.id, ErrnoMap(status)))))))
  }

  /** gb_operation_request_send. */
  function SenderMove(enabled: bool, op: Op, s: Step): Option<Effect> {
    match s
    case AssignId(cycle) =>
      if op.creator.Holding?
      then Keeping(op.(creator := Numbered, tag := Tag(cycle % CYCLES % 65535 + 1, cycle))) else None
    case Arm =>
      if op.creator.Numbered?
      then Keeping(op.(creator := Armed, errno := ResultSet(op.errno, EINPROGRESS).0)) else None
    case HandOver(ret) =>
      if op.creator.Armed? then HandOverMove(enabled, op, ret) else None
    case _ => None
  }

  /** gb_operation_request_send_sync_timeout after the send, and gb_operation_sync_timeout. */
  function WaiterMove(op: Op, s: Step): Option<Effect> {
    match s
    case CompletionSeen =>
      if op.creator.Awaiting? && op.completed then Keeping(op.(creator := Collecting)) else None
    case GiveUp(interrupted) =>
      if op.creator.Awaiting? then
        Keeping(op.(creator := Cancelling,
                    syncCancel := Some(Cancel(if interrupted then ECANCELED else ETIMEDOUT, Start))))
      else None
    case Collect =>
      if op.creator.Collecting? && |op.respBuf| == HEADER + op.cfg.respSize
      then Keeping(op.(creator := Returned, log := op.log.(outcome := Some(op.errno)),
                       user := if op.errno == 0 then op.respBuf[HEADER..] else op.user))
      else None
    case Destroy =>
      if op.creator.Holding? || op.creator.Refused? || op.creator.Returned?
      then Keeping(Put(op).(creator := Gone)) else None
    case _ => None
  }

  predicate Sends(s: Step) {
    s.AssignId? || s.Arm? || s.HandOver?
  }

  function CreatorMove(enabled: bool, op: Op, s: Step): Option<Effect> {
    if Sends(s) then SenderMove(enabled, op, s) else WaiterMove(op, s)
  }

  /** greybus_message_sent on a request. */
  function SentMove(op: Op, status: int): Option<Effect> {
    if !op.request.InDevice? then None
    else if status == 0 then Keeping(op.(request := Clearing))
    else if !ErrorResult(status) then None
    else Keeping(Failed(Decide(op, status), Wins(op, status)))
  }

  function Failed(op: Op, won: bool): Op {
    op.(request := if won then ReportWon else Clearing, log := op.log.(failed := won))
  }

  /** greybus_message_sent, and the rest of the driver's callback. */
  function DeviceMove(op: Op, s: Step): Option<Effect> {
    match s
    case SendReport(status) => SentMove(op, status)
    case SendReportQueue =>
      if op.request.ReportWon? then Keeping(QueueWork(op).(request := Clearing)) else None
    case ClearRequest =>
      if op.request.Clearing? then Keeping(op.(request := Reported)) else None
    case ResponseReport =>
      if op.response.RespInDevice? then Some(PutActive(op.(response := RespDropping))) else None
    case ResponsePut =>
      if op.response.RespDropping? then Keeping(Put(op).(response := RespClearing)) else None
    case ClearResponse =>
      if op.response.RespClearing? then Keeping(op.(response := RespDone)) else None
    case _ => None
  }

  /** The handler has returned; unless there is no memory for a response, its status is to be recorded. */
  function Handled(op: Op, status: int, respond: bool): Op {
    op.(work := if respond then Responding(status) else Called,
        log := op.log.(runs := op.log.runs + 1, handled := if respond then Some(status) else None))
  }

  /** gb_operation_work, with the callback or the request handler inside it. */
  function WorkMove(enabled: bool, op: Op, s: Step): Option<Effect> {
    match s
    case RunCallback =>
      if op.work.Queued? && !op.cfg.incoming then
        var op' := op.(work := Called, log := op.log.(runs := op.log.runs + 1));
        Keeping(if op.cfg.sync then op'.(completed := true)
                else if op.creator.AsyncSent? then Put(op').(creator := Gone) else op')
      else None
    case NoHandler =>
      if op.work.Queued? && op.cfg.incoming
      then Keeping(op.(work := Called, log := op.log.(runs := op.log.runs + 1))) else None
    case HandlerReturns(status, hasResponse) =>
      if op.work.Queued? && op.cfg.incoming && status != EINPROGRESS
      then Keeping(Handled(op, status, hasResponse || op.cfg.unidirectional).(hasResp := op.hasResp || hasResponse))
      else None
    case RecordStatus =>
      if op.work.Responding?
      then Keeping(Decide(op, op.work.status).(
                     work := if Wins(op, op.work.status) && !op.cfg.unidirectional
                             then Sending(op.work.status) else Called))
      else None
    case SendResponse(ret) =>
      if op.work.Sending? then SendResponseMove(enabled, op, op.work.status, ret) else None
    case WorkPutActive =>
      if op.work.Called? then Some(PutActive(op.(work := Dropped))) else None
    case WorkPut =>
      if op.work.Dropped? then Keeping(Put(op).(work := Finished, inflight := false)) else None
    case _ => None
  }

  /** gb_connection_recv_request after the operation has been created. */
  function InterruptMove(enabled: bool, op: Op, s: Step): Option<Effect> {
    match s
    case RequestActivate =>
      if !op.creator.InCreated? then None
      else if enabled then
        var e := GetActive(op);
        Some(e.(op := e.op.(creator := InActive)))
      else Keeping(Put(op).(creator := Gone, inflight := false))
    case RequestArm =>
      if op.creator.InActive?
      then Keeping(op.(creator := InArmed, errno := ResultSet(op.errno, EINPROGRESS).0)) else None
    case RequestQueue =>
      if op.creator.InArmed? then Keeping(QueueWork(op).(creator := Gone)) else None
    case _ => None
  }

  /** The teardown thread's hold on an operation, and stray wake-ups. */
  function HoldMove(op: Op, s: Step): Option<Effect> {
    match s
    case CancelBegin(errno) =>
      if op.teardown.None? && ErrorResult(errno)
      then Keeping(Get(op).(teardown := Some(Cancel(errno, Start)))) else None
    case SpuriousWake(who) =>
      if Slot(op, who).Some? && Slot(op, who).value.phase.Asleep?
      then Keeping(SetPhase(op, who, Prepared)) else None
    case CancelEnd =>
      if op.teardown.Some? && op.teardown.value.phase.Done?
      then Keeping(Put(op).(teardown := None)) else None
    case _ => None
  }

  datatype Agent = ByCreator | ByDevice | ByReceiver | ByWork | ByInterrupt | ByCanceller | ByHold

  function AgentOf(s: Step): Agent {
    match s
    case AssignId(_) => ByCreator
    case Arm => ByCreator
    case HandOver(_) => ByCreator
    case CompletionSeen => ByCreator
    case GiveUp(_) => ByCreator
    case Collect => ByCreator
    case Destroy => ByCreator
    case SendReport(_) => ByDevice
    case SendReportQueue => ByDevice
    case ClearRequest => ByDevice
    case ClearResponse => ByDevice
    case ResponseReport => ByDevice
    case ResponsePut => ByDevice
    case Lookup(_) => ByReceiver
    case ReceiverDecide(_) => ByReceiver
    case ReceiverCopy(_) => ByReceiver
    case ReceiverQueue(_) => ByReceiver
    case ReceiverPut(_) => ByReceiver
    case RequestActivate => ByInterrupt
    case RequestArm => ByInterrupt
    case RequestQueue => ByInterrupt
    case CancelStep(_) => ByCanceller
    case CancelBegin(_) => ByHold
    case SpuriousWake(_) => ByHold
    case CancelEnd => ByHold
    case _ => ByWork
  }

  /** The step s of some agent of op, or None when that agent is not there. */
  function Move(enabled: bool, op: Op, s: Step): Option<Effect> {
    match AgentOf(s)
    case ByCreator => CreatorMove(enabled, op, s)
    case ByDevice => DeviceMove(op, s)
    case ByReceiver => ReceiverMove(op, s)
    case ByWork => WorkMove(enabled, op, s)
    case ByInterrupt => InterruptMove(enabled, op, s)
    case ByCanceller => CancelMove(op, s)
    case ByHold => HoldMove(op, s)
  }

  // -------------------------------------------------------------- connection

  /** gb_connection_cancel_operations, run once by gb_connection_exit. */
  datatype Loop = NotStarted | Picking | Busy(op: nat) | Ended

  datatype Conn = Conn(
    state: ConnState,
    opCycle: int,                        // sends so far; the source keeps its low 32 bits
    ops: map<nat, Op>,                   // every operation ever created, by address
    list: seq<nat>,                      // connection->operations
    loop: Loop,
    rx: seq<seq<byte>>)                  // history: well-formed messages received

  datatype Event =
    | Enable | Fail                      // gb_connection_init and its error path
    | Create(o: nat, sync: bool, user: seq<byte>)
    | TakeId(o: nat)
    | Receive(data: seq<byte>, o: nat)   // o: address of the operation a request creates
    | OpStep(o: nat, s: Step)
    | StartTeardown | Pick | Drop | EndLoop

  const NEW_CONN := Conn(Disabled, 0, map[], [], NotStarted, [])

  const EMPTY_LOG := Log(0, 0, 0, 0, None, None, false, false, None, None)

  function Outgoing(sync: bool, user: seq<byte>): Op {
    Op(Config(false, false, sync, |user|, user), Tag(0, 0), EBADR, 1, 0, 0, Holding, false, false,
       Idle, NotSent, NoResponse, true, [], None, None, false, seq(HEADER + |user|, _ => 0), user, EMPTY_LOG)
  }

  function Incoming(data: seq<byte>): Op
    requires |data| >= HEADER
  {
    var id := MessageId(data);
    Op(Config(true, id == 0, false, 0, []), Tag(id, 0), EBADR, 1, 0, 0, InCreated, true, false,
       Idle, NotSent, NoResponse, false, [], None, None, false, [], [], EMPTY_LOG)
  }

  function Relink(list: seq<nat>, o: nat, links: Links): seq<nat> {
    match links
    case Keep => list
    case Add => list + [o]
    case Remove => Without(list, o)
  }

  /** list_del. */
  function Without(list: seq<nat>, o: nat): seq<nat> {
    if list == [] then []
    else if list[0] == o then list[1..]
    else [list[0]] + Without(list[1..], o)
  }

  /** gb_operation_find_outgoing: the first match on the list. */
  function FindOutgoing(ops: map<nat, Op>, list: seq<nat>, id: int): Option<nat>
    requires forall o :: o in list ==> o in ops
  {
    if list == [] then None
    else if ops[list[0]].tag.id == id && !ops[list[0]].cfg.incoming then Some(list[0])
    else FindOutgoing(ops, list[1..], id)
  }

  function OnOp(c: Conn, o: nat, s: Step): Option<Conn> {
    if o !in c.ops then None else
    match Move(c.state.Enabled?, c.ops[o], s)
    case None => None
    case Some(e) => Some(c.(ops := c.ops[o := e.op], list := Relink(c.list, o, e.links)))
  }

  /** Steps that are only taken through a connection-level event. */
  predicate ConnectionStep(s: Step) {
    s.AssignId? || s.Lookup? || s.CancelBegin? || s.CancelEnd?
  }

  function Apply(c: Conn, e: Event): Option<Conn>
  {
    match e
    case Enable =>
      if c.state.Disabled? || c.state.Error? then Some(c.(state := Enabled)) else None
    case Fail =>
      if c.state.Enabled? then Some(c.(state := Error)) else None
    case Create(o, sync, user) =>
      if o in c.ops then None else Some(c.(ops := c.ops[o := Outgoing(sync, user)]))
    case TakeId(o) =>
      var cycle := c.opCycle + 1;
      OnOp(c.(opCycle := cycle), o, AssignId(cycle))
    case Receive(data, o) =>
      if !WellFormedMessage(data) then None
      else if IsResponse(data) then
        if !(forall p :: p in c.list ==> p in c.ops) then None else
        var c' := c.(rx := c.rx + [data]);
        (match FindOutgoing(c.ops, c.list, MessageId(data))
         case None => Some(c')
         case Some(p) => OnOp(c', p, Lookup(data)))
      else if MessageSize(data) < HEADER || o in c.ops then None
      else Some(c.(ops := c.ops[o := Incoming(data)], rx := c.rx + [data]))
    case OpStep(o, s) =>
      if ConnectionStep(s) then None else OnOp(c, o, s)
    case StartTeardown =>
      if c.state.Enabled? then Some(c.(state := Destroying, loop := Picking)) else None
    case Pick =>
      if c.loop.Picking? && c.list != [] then
        var o := c.list[|c.list| - 1];
        OnOp(c.(loop := Busy(o)), o, CancelBegin(ESHUTDOWN))
      else None
    case Drop =>
      if c.loop.Busy? then OnOp(c.(loop := Picking), c.loop.op, CancelEnd) else None
    case EndLoop =>
      if c.loop.Picking? && c.list == [] then Some(c.(loop := Ended)) else None
  }

  function Exec(c: Conn, es: seq<Event>): Option<Conn>
    decreases |es|
  {
    if es == [] then Some(c)
    else
      match Apply(c, es[0])
      case None => None
      case Some(c') => Exec(c', es[1..])
  }

  /** c is reached from a fresh connection by some interleaving. */
  ghost predicate Reachable(c: Conn) {
    exists es :: Exec(NEW_CONN, es) == Some(c)
  }
}
