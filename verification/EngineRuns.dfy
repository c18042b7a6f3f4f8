/** Whole runs of a connection: any number of operations, any interleaving. */
module EngineRuns {
  import opened Common
  import opened Errno
  import opened Engine
  import opened EngineInvariant

  // -------------------------------------------------------------- invariant

  ghost predicate NoDuplicates(list: seq<nat>) {
    forall i, j :: 0 <= i < j < |list| ==> list[i] != list[j]
  }

  ghost predicate ListOk(c: Conn) {
    && NoDuplicates(c.list)
    && (forall o :: o in c.list ==> o in c.ops)
    && (forall o :: o in c.ops ==> (o in c.list <==> c.ops[o].active > 0))
  }

  ghost predicate LoopOk(c: Conn) {
    && (c.loop.NotStarted? <==> !c.state.Destroying?)
    && (c.loop.Ended? ==> c.list == [])
    && (forall o :: o in c.ops ==> (c.ops[o].teardown.Some? <==> c.loop == Busy(o)))
    && (c.loop.Busy? ==> c.loop.op in c.ops)
    && (forall o :: o in c.ops && Left(c.ops[o].teardown) ==> c.ops[o].active == 0)
  }

  /** Messages that op holds or was decided by were received as responses. */
  ghost predicate FromWire(op: Op, rx: seq<seq<byte>>) {
    && (op.log.winner.Some? ==> IsReceived(op.log.winner.value, rx))
    && (forall i :: 0 <= i < |op.receivers| ==>
          match op.receivers[i]
          case Found(data) => IsReceived(data, rx)
          case Copying(data) => IsReceived(data, rx)
          case _ => true)
  }

  ghost predicate IsReceived(data: seq<byte>, rx: seq<seq<byte>>) {
    data in rx && |data| >= HEADER && IsResponse(data)
  }

  ghost predicate ConnInv(c: Conn) {
    && (forall o :: o in c.ops ==> OpInv(c.ops[o]))
    && ListOk(c)
    && LoopOk(c)
    && (forall o :: o in c.ops ==> FromWire(c.ops[o], c.rx))
  }

  // ------------------------------------------------------------------- list

  lemma {:induction false} WithoutFacts(list: seq<nat>, o: nat)
    requires NoDuplicates(list) && o in list
    ensures NoDuplicates(Without(list, o))
    ensures |Without(list, o)| == |list| - 1
    ensures forall p :: p in Without(list, o) <==> p in list && p != o
  {
    if list[0] == o {
      assert forall p :: p in list[1..] <==> p in list && p != o;
    } else {
      assert o in list[1..];
      WithoutFacts(list[1..], o);
      var rest := Without(list[1..], o);
      assert NoDuplicates([list[0]] + rest) by {
        assert list[0] !in list[1..];
      }
      assert forall p :: p in [list[0]] + rest <==> p == list[0] || p in rest;
      assert forall p :: p in list <==> p == list[0] || p in list[1..];
    }
  }

  lemma RelinkKeeps(c: Conn, o: nat, e: Effect)
    requires ListOk(c) && o in c.ops && LinksMatch(c.ops[o], e)
    requires c.ops[o].active >= 0 && e.op.active >= 0
    ensures ListOk(c.(ops := c.ops[o := e.op], list := Relink(c.list, o, e.links)))
  {
    if e.links.Remove? {
      WithoutFacts(c.list, o);
    }
  }

  // ------------------------------------------------------------- local facts

  /** The creator has assigned an id. */
  predicate HasId(op: Op) {
    op.accepted || op.creator.Numbered? || op.creator.Armed?
  }

  /** What one step leaves alone. */
  predicate Frame(enabled: bool, op: Op, s: Step, e: Effect) {
    && e.op.cfg == op.cfg
    && (!s.AssignId? ==> e.op.tag == op.tag && (HasId(e.op) ==> HasId(op)))
    && (!enabled ==> e.op.active <= op.active && !e.links.Add?)
    && (!s.CancelBegin? && !s.CancelEnd? ==> (e.op.teardown.Some? <==> op.teardown.Some?))
    && (Left(e.op.teardown) ==> Left(op.teardown) || e.op.active == 0)
    && (!AgentOf(s).ByReceiver? ==> e.op.receivers == op.receivers && e.op.log.winner == op.log.winner)
    && (Final(op.errno) ==> e.op.errno == op.errno)
  }

  /** No agent is about to record a reserved value over a final result. */
  predicate NoReservedResult(op: Op) {
    && (op.creator.Numbered? || op.creator.InActive? ==> op.errno == EBADR)
    && (op.work.Responding? ==> op.work.status != EINPROGRESS)
    && (op.syncCancel.Some? ==> op.syncCancel.value.errno != EINPROGRESS)
    && (op.teardown.Some? ==> op.teardown.value.errno != EINPROGRESS)
  }

  lemma HandOverFrame(enabled: bool, op: Op, ret: int)
    requires op.creator.Armed? && HandOverMove(enabled, op, ret).Some?
    ensures Frame(enabled, op, HandOver(ret), HandOverMove(enabled, op, ret).value)
  {
  }

  lemma SenderFrame(enabled: bool, op: Op, s: Step)
    requires NoReservedResult(op) && SenderMove(enabled, op, s).Some?
    ensures Frame(enabled, op, s, SenderMove(enabled, op, s).value)
  {
    if s.HandOver? {
      HandOverFrame(enabled, op, s.ret);
    }
  }

  lemma WaiterFrame(enabled: bool, op: Op, s: Step)
    requires WaiterMove(op, s).Some?
    ensures Frame(enabled, op, s, WaiterMove(op, s).value)
  {
  }

  lemma CreatorFrame(enabled: bool, op: Op, s: Step)
    requires NoReservedResult(op) && CreatorMove(enabled, op, s).Some?
    ensures Frame(enabled, op, s, CreatorMove(enabled, op, s).value)
  {
    if Sends(s) {
      SenderFrame(enabled, op, s);
    } else {
      WaiterFrame(enabled, op, s);
    }
  }

  lemma SentFrame(enabled: bool, op: Op, s: Step)
    requires DeviceMove(op, s).Some?
    requires s == SendReport(0)
    ensures Frame(enabled, op, s, DeviceMove(op, s).value)
  {
  }

  lemma NotSentFrame(enabled: bool, op: Op, s: Step)
    requires DeviceMove(op, s).Some?
    requires s.SendReport? && s.status != 0
    ensures Frame(enabled, op, s, DeviceMove(op, s).value)
  {
    DecideFrame(op, s.status);
  }

  /** Deciding leaves a final result alone. */
  lemma DecideFrame(op: Op, result: int)
    requires result != EINPROGRESS
    ensures Final(op.errno) ==> Decide(op, result).errno == op.errno
    ensures Decide(op, result).log.winner == op.log.winner
  {
  }

  lemma ReportFrame(enabled: bool, op: Op, s: Step)
    requires NoReservedResult(op) && DeviceMove(op, s).Some?
    requires s.SendReport?
    ensures Frame(enabled, op, s, DeviceMove(op, s).value)
  {
    if s.status == 0 {
      SentFrame(enabled, op, s);
    } else {
      NotSentFrame(enabled, op, s);
    }
  }

  lemma DeviceEndFrame(enabled: bool, op: Op, s: Step)
    requires DeviceMove(op, s).Some?
    requires s.SendReportQueue? || s.ResponsePut? || s.ClearRequest? || s.ClearResponse?
    ensures Frame(enabled, op, s, DeviceMove(op, s).value)
  {
  }

  lemma ResponseFrame(enabled: bool, op: Op, s: Step)
    requires DeviceMove(op, s).Some?
    requires s.ResponseReport?
    ensures Frame(enabled, op, s, DeviceMove(op, s).value)
  {
  }

  lemma DeviceFrame(enabled: bool, op: Op, s: Step)
    requires NoReservedResult(op) && DeviceMove(op, s).Some?
    ensures Frame(enabled, op, s, DeviceMove(op, s).value)
  {
    match s
    case SendReport(_) => ReportFrame(enabled, op, s);
    case ResponseReport => ResponseFrame(enabled, op, s);
    case _ => DeviceEndFrame(enabled, op, s);
  }

  lemma HandlerFrame(enabled: bool, op: Op, s: Step)
    requires WorkMove(enabled, op, s).Some?
    requires s.NoHandler? || s.HandlerReturns?
    ensures Frame(enabled, op, s, WorkMove(enabled, op, s).value)
  {
  }

  lemma RecordFrame(enabled: bool, op: Op, s: Step)
    requires NoReservedResult(op) && WorkMove(enabled, op, s).Some?
    requires s.RecordStatus?
    ensures Frame(enabled, op, s, WorkMove(enabled, op, s).value)
  {
  }

  lemma CallbackFrame(enabled: bool, op: Op, s: Step)
    requires WorkMove(enabled, op, s).Some?
    requires s.RunCallback?
    ensures Frame(enabled, op, s, WorkMove(enabled, op, s).value)
  {
  }

  lemma SendResponseFrame(enabled: bool, op: Op, s: Step)
    requires WorkMove(enabled, op, s).Some?
    requires s.SendResponse?
    ensures Frame(enabled, op, s, WorkMove(enabled, op, s).value)
  {
  }

  lemma WorkPutActiveFrame(enabled: bool, op: Op, s: Step)
    requires WorkMove(enabled, op, s).Some?
    requires s.WorkPutActive?
    ensures Frame(enabled, op, s, WorkMove(enabled, op, s).value)
  {
  }

  lemma WorkPutFrame(enabled: bool, op: Op, s: Step)
    requires WorkMove(enabled, op, s).Some?
    requires s.WorkPut?
    ensures Frame(enabled, op, s, WorkMove(enabled, op, s).value)
  {
  }

  lemma InterruptFrame(enabled: bool, op: Op, s: Step)
    requires NoReservedResult(op) && InterruptMove(enabled, op, s).Some?
    ensures Frame(enabled, op, s, InterruptMove(enabled, op, s).value)
  {
  }

  lemma HoldFrame(enabled: bool, op: Op, s: Step)
    requires NoReservedResult(op) && HoldMove(op, s).Some?
    ensures Frame(enabled, op, s, HoldMove(op, s).value)
  {
  }

  lemma ReceiverFrame(enabled: bool, op: Op, s: Step)
    requires NoReservedResult(op) && ReceiverMove(op, s).Some?
    ensures Frame(enabled, op, s, ReceiverMove(op, s).value)
  {
  }

  /** Changing a canceller's phase changes nothing else. */
  lemma PhaseFrame(enabled: bool, op: Op, op1: Op, who: Who, phase: Phase)
    requires Slot(op, who).Some? && Slot(op1, who).Some?
    requires op1.cfg == op.cfg && op1.tag == op.tag && op1.active == op.active
    requires op1.teardown == op.teardown && op1.creator == op.creator && op1.accepted == op.accepted
    requires op1.receivers == op.receivers && op1.log.winner == op.log.winner
    requires Final(op.errno) ==> op1.errno == op.errno
    requires phase.Leaving? || phase.Done? ==> Left(Slot(op, who)) || op.active == 0
    ensures Frame(enabled, op, CancelStep(who), Effect(SetPhase(op1, who, phase), Keep))
  {
  }

  lemma PhaseDecideFrame(enabled: bool, op: Op, who: Who)
    requires NoReservedResult(op) && Slot(op, who).Some? && PhaseMove(op, who).Some?
    requires Slot(op, who).value.phase.Start? || Slot(op, who).value.phase.Flushed?
    ensures Frame(enabled, op, CancelStep(who), PhaseMove(op, who).value)
  {
    var c := Slot(op, who).value;
    var won := Wins(op, c.errno);
    if c.phase.Start? && op.cfg.incoming {
      PhaseFrame(enabled, op, op, who, if op.cfg.unidirectional then Counting else Flushed);
    } else {
      PhaseFrame(enabled, op, Decide(op, c.errno), who, if won == op.cfg.incoming then Counting else Killing);
    }
  }

  lemma PhaseWaitFrame(enabled: bool, op: Op, who: Who)
    requires NoReservedResult(op) && Slot(op, who).Some? && PhaseMove(op, who).Some?
    requires Slot(op, who).value.phase.Counting? || Slot(op, who).value.phase.Prepared?
    ensures Frame(enabled, op, CancelStep(who), PhaseMove(op, who).value)
  {
    match Slot(op, who).value.phase
    case Counting => PhaseFrame(enabled, op, op.(waiters := op.waiters + 1), who, Prepared);
    case Prepared => PhaseFrame(enabled, op, op, who, if op.active != 0 then Asleep else Leaving);
  }

  lemma PhaseQueueFrame(enabled: bool, op: Op, who: Who)
    requires Slot(op, who).Some? && Slot(op, who).value.phase.CQueueing?
    ensures Frame(enabled, op, CancelStep(who), PhaseMove(op, who).value)
  {
    PhaseFrame(enabled, op, QueueWork(op), who, Counting);
  }

  lemma PhaseKillFrame(enabled: bool, op: Op, who: Who)
    requires Slot(op, who).Some? && Slot(op, who).value.phase.Killing? && PhaseMove(op, who).Some?
    ensures Frame(enabled, op, CancelStep(who), PhaseMove(op, who).value)
  {
    PhaseFrame(enabled, op, op, who,
               if !op.cfg.incoming then CQueueing else if op.hasResp then Counting else Crashed);
  }

  lemma PhaseLeaveFrame(enabled: bool, op: Op, who: Who)
    requires Slot(op, who).Some? && Slot(op, who).value.phase.Leaving?
    ensures PhaseMove(op, who).Some? && Frame(enabled, op, CancelStep(who), PhaseMove(op, who).value)
  {
  }

  // ------------------------------------------------------ shape of a phase

  /** What a step of a canceller leaves alone; it may only queue the work, record a result and move its own slot. */
  predicate Shape(op: Op, op': Op, who: Who) {
    && op'.cfg == op.cfg && op'.receivers == op.receivers && op'.request == op.request
    && op'.response == op.response && op'.hasResp == op.hasResp
    && op'.accepted == op.accepted && op'.tag == op.tag
    && op'.log.outcome == op.log.outcome && op'.log.handled == op.log.handled && op'.log.answer == op.log.answer
    && (who.Sync? ==> op'.teardown == op.teardown) && (who.Teardown? ==> op'.syncCancel == op.syncCancel)
    && (op'.work == op.work || (Slot(op, who).Some? && Slot(op, who).value.phase.CQueueing?))
    && (who.Teardown? ==> op'.creator == op.creator && op'.teardown.Some?)
    && (Slot(op', who).Some? && Slot(op, who).Some? ==> Slot(op', who).value.errno == Slot(op, who).value.errno)
  }

  lemma PhaseShape(op: Op, op1: Op, who: Who, phase: Phase)
    requires Slot(op1, who).Some? && op1.cfg == op.cfg && op1.receivers == op.receivers
    requires op1.request == op.request && op1.response == op.response && op1.hasResp == op.hasResp
    requires op1.syncCancel == op.syncCancel && op1.teardown == op.teardown && op1.creator == op.creator
    requires op1.accepted == op.accepted && op1.tag == op.tag && op1.log.outcome == op.log.outcome
    requires op1.log.handled == op.log.handled && op1.log.answer == op.log.answer
    requires op1.work == op.work || Slot(op, who).value.phase.CQueueing?
    ensures Shape(op, SetPhase(op1, who, phase), who)
  {
  }

  lemma DecideShape(op: Op, who: Who)
    requires Slot(op, who).Some? && PhaseMove(op, who).Some?
    requires Slot(op, who).value.phase.Start? || Slot(op, who).value.phase.Flushed?
    ensures Shape(op, PhaseMove(op, who).value.op, who)
  {
    var c := Slot(op, who).value;
    var won := Wins(op, c.errno);
    if c.phase.Start? && op.cfg.incoming {
      PhaseShape(op, op, who, if op.cfg.unidirectional then Counting else Flushed);
    } else if op.cfg.incoming {
      PhaseShape(op, Early(Decide(op, c.errno), op.errno == EBADR), who, if won then Counting else Killing);
    } else {
      PhaseShape(op, Decide(op, c.errno), who, if won then Killing else Counting);
    }
  }

  lemma KillShape(op: Op, who: Who)
    requires Slot(op, who).Some? && PhaseMove(op, who).Some?
    requires Slot(op, who).value.phase.Killing? || Slot(op, who).value.phase.CQueueing?
    ensures Shape(op, PhaseMove(op, who).value.op, who)
  {
    if Slot(op, who).value.phase.CQueueing? {
      PhaseShape(op, QueueWork(op), who, Counting);
    } else {
      PhaseShape(op, op, who, if !op.cfg.incoming then CQueueing else if op.hasResp then Counting else Crashed);
    }
  }

  lemma WaitShape(op: Op, who: Who)
    requires Slot(op, who).Some? && PhaseMove(op, who).Some?
    requires Slot(op, who).value.phase.Counting? || Slot(op, who).value.phase.Prepared?
    ensures Shape(op, PhaseMove(op, who).value.op, who)
  {
    if Slot(op, who).value.phase.Counting? {
      PhaseShape(op, op.(waiters := op.waiters + 1), who, Prepared);
    } else {
      PhaseShape(op, op, who, if op.active != 0 then Asleep else Leaving);
    }
  }

  lemma LeaveShape(op: Op, who: Who)
    requires Slot(op, who).Some? && Slot(op, who).value.phase.Leaving?
    ensures PhaseMove(op, who).Some? && Shape(op, PhaseMove(op, who).value.op, who)
  {
    PhaseShape(op, op.(waiters := op.waiters - 1), who, Done);
  }

  lemma CancelShape(op: Op, who: Who)
    requires Slot(op, who).Some? && PhaseMove(op, who).Some?
    ensures Shape(op, PhaseMove(op, who).value.op, who)
  {
    var phase := Slot(op, who).value.phase;
    if phase.Start? || phase.Flushed? {
      DecideShape(op, who);
    } else if phase.Killing? || phase.CQueueing? {
      KillShape(op, who);
    } else if phase.Leaving? {
      LeaveShape(op, who);
    } else {
      WaitShape(op, who);
    }
  }

  lemma WorkFrame(enabled: bool, op: Op, s: Step)
    requires NoReservedResult(op) && WorkMove(enabled, op, s).Some?
    ensures Frame(enabled, op, s, WorkMove(enabled, op, s).value)
  {
    match s
    case SendResponse(_) => SendResponseFrame(enabled, op, s);
    case WorkPutActive => WorkPutActiveFrame(enabled, op, s);
    case WorkPut => WorkPutFrame(enabled, op, s);
    case RunCallback => CallbackFrame(enabled, op, s);
    case RecordStatus => RecordFrame(enabled, op, s);
    case _ => HandlerFrame(enabled, op, s);
  }

  lemma CancelFrame(enabled: bool, op: Op, s: Step)
    requires NoReservedResult(op) && CancelMove(op, s).Some?
    ensures Frame(enabled, op, s, CancelMove(op, s).value)
  {
    var phase := Slot(op, s.who).value.phase;
    if phase.Start? || phase.Flushed? {
      PhaseDecideFrame(enabled, op, s.who);
    } else if phase.Leaving? {
      PhaseLeaveFrame(enabled, op, s.who);
    } else if phase.Killing? {
      PhaseKillFrame(enabled, op, s.who);
    } else if phase.CQueueing? {
      PhaseQueueFrame(enabled, op, s.who);
    } else {
      PhaseWaitFrame(enabled, op, s.who);
    }
  }

  lemma MoveFrame(enabled: bool, op: Op, s: Step)
    requires NoReservedResult(op) && Move(enabled, op, s).Some?
    ensures Frame(enabled, op, s, Move(enabled, op, s).value)
  {
    match AgentOf(s)
    case ByCreator => CreatorFrame(enabled, op, s);
    case ByDevice => DeviceFrame(enabled, op, s);
    case ByReceiver => ReceiverFrame(enabled, op, s);
    case ByWork => WorkFrame(enabled, op, s);
    case ByInterrupt => InterruptFrame(enabled, op, s);
    case ByCanceller => CancelFrame(enabled, op, s);
    case ByHold => HoldFrame(enabled, op, s);
  }

  lemma InvHasNoReservedResult(op: Op)
    requires OpInv(op)
    ensures NoReservedResult(op)
  {
  }

  lemma ReceiverWire(op: Op, s: Step, rx: seq<seq<byte>>)
    requires FromWire(op, rx) && ReceiverMove(op, s).Some?
    requires s.Lookup? ==> IsReceived(s.data, rx)
    ensures FromWire(ReceiverMove(op, s).value.op, rx)
  {
  }

  // ---------------------------------------------------------- preservation

  function With(c: Conn, o: nat, e: Effect): Conn {
    c.(ops := c.ops[o := e.op], list := Relink(c.list, o, e.links))
  }

  /** Replacing one operation by its successor. */
  lemma WithKeeps(c: Conn, o: nat, e: Effect)
    requires ConnInv(c) && o in c.ops
    requires OpInv(e.op) && LinksMatch(c.ops[o], e) && FromWire(e.op, c.rx)
    requires e.op.teardown.Some? <==> c.ops[o].teardown.Some?
    requires Left(e.op.teardown) ==> e.op.active == 0
    requires c.loop.Ended? ==> !e.links.Add?
    ensures ConnInv(With(c, o, e))
  {
    RelinkKeeps(c, o, e);
  }

  /** The part of a step's frame that the connection needs. */
  lemma StepSummary(c: Conn, o: nat, s: Step)
    requires ConnInv(c) && o in c.ops && !s.CancelBegin? && !s.CancelEnd?
    requires Move(c.state.Enabled?, c.ops[o], s).Some?
    requires s.Lookup? ==> c.ops[o].active > 0 && IsReceived(s.data, c.rx)
    ensures var e := Move(c.state.Enabled?, c.ops[o], s).value;
      && OpInv(e.op) && LinksMatch(c.ops[o], e)
      && Frame(c.state.Enabled?, c.ops[o], s, e)
      && FromWire(e.op, c.rx)
      && (Left(e.op.teardown) ==> e.op.active == 0)
      && (c.loop.Ended? ==> !e.links.Add?)
  {
    var op := c.ops[o];
    MoveKeeps(c.state.Enabled?, op, s);
    InvHasNoReservedResult(op);
    MoveFrame(c.state.Enabled?, op, s);
    if AgentOf(s).ByReceiver? {
      ReceiverWire(op, s, c.rx);
    }
  }

  /** One step on one operation, seen from the connection. */
  lemma OnOpKeeps(c: Conn, o: nat, s: Step)
    requires ConnInv(c) && OnOp(c, o, s).Some? && !s.CancelBegin? && !s.CancelEnd?
    requires s.Lookup? ==> c.ops[o].active > 0 && IsReceived(s.data, c.rx)
    ensures ConnInv(OnOp(c, o, s).value)
  {
    StepSummary(c, o, s);
    WithKeeps(c, o, Move(c.state.Enabled?, c.ops[o], s).value);
  }

  lemma CreateKeeps(c: Conn, o: nat, op: Op)
    requires ConnInv(c) && o !in c.ops
    requires OpInv(op) && op.active == 0 && op.teardown.None? && op.receivers == [] && op.log.winner.None?
    ensures ConnInv(c.(ops := c.ops[o := op]))
  {
    assert o !in c.list;
    assert c.loop != Busy(o);
  }

  lemma ReceivedKeeps(c: Conn, data: seq<byte>)
    requires ConnInv(c)
    ensures ConnInv(c.(rx := c.rx + [data]))
  {
    forall o | o in c.ops ensures FromWire(c.ops[o], c.rx + [data]) {
      WireGrows(c.ops[o], c.rx, data);
    }
  }

  lemma WireGrows(op: Op, rx: seq<seq<byte>>, data: seq<byte>)
    requires FromWire(op, rx)
    ensures FromWire(op, rx + [data])
  {
  }

  lemma {:induction false} FindOutgoingFinds(ops: map<nat, Op>, list: seq<nat>, id: int)
    requires forall o :: o in list ==> o in ops
    ensures match FindOutgoing(ops, list, id)
      case None => forall o :: o in list ==> ops[o].tag.id != id || ops[o].cfg.incoming
      case Some(o) => o in list && ops[o].tag.id == id && !ops[o].cfg.incoming
  {
    if list != [] {
      FindOutgoingFinds(ops, list[1..], id);
      assert forall o :: o in list <==> o == list[0] || o in list[1..];
    }
  }

  /** Of several matches it is the first on the list. */
  lemma {:induction false} FindOutgoingFirst(ops: map<nat, Op>, list: seq<nat>, id: int, k: nat)
    requires (forall o :: o in list ==> o in ops) && k < |list|
    requires ops[list[k]].tag.id == id && !ops[list[k]].cfg.incoming
    requires forall j :: 0 <= j < k ==> ops[list[j]].tag.id != id || ops[list[j]].cfg.incoming
    ensures FindOutgoing(ops, list, id) == Some(list[k])
  {
    if k > 0 {
      FindOutgoingFirst(ops, list[1..], id, k - 1);
    }
  }

  lemma ReceiveKeeps(c: Conn, data: seq<byte>, o: nat)
    requires ConnInv(c) && Apply(c, Receive(data, o)).Some?
    ensures ConnInv(Apply(c, Receive(data, o)).value)
  {
    ReceivedKeeps(c, data);
    if IsResponse(data) {
      ResponseKeepsConn(c.(rx := c.rx + [data]), data);
    } else {
      CreateKeeps(c.(rx := c.rx + [data]), o, Incoming(data));
    }
  }

  lemma ResponseKeepsConn(c: Conn, data: seq<byte>)
    requires ConnInv(c) && WellFormedMessage(data) && IsReceived(data, c.rx)
    ensures match FindOutgoing(c.ops, c.list, MessageId(data))
      case None => true
      case Some(p) => OnOp(c, p, Lookup(data)).Some? ==> ConnInv(OnOp(c, p, Lookup(data)).value)
  {
    FindOutgoingFinds(c.ops, c.list, MessageId(data));
    match FindOutgoing(c.ops, c.list, MessageId(data))
    case None =>
    case Some(p) => if OnOp(c, p, Lookup(data)).Some? { OnOpKeeps(c, p, Lookup(data)); }
  }

  /** The teardown thread's hold moves together with the loop's program counter. */
  lemma HoldKeepsConn(c: Conn, o: nat, op': Op, loop': Loop)
    requires ConnInv(c) && o in c.ops && c.state.Destroying?
    requires OpInv(op') && op'.active == c.ops[o].active && !Left(op'.teardown) && FromWire(op', c.rx)
    requires if op'.teardown.Some? then loop' == Busy(o) && c.loop.Picking? else loop' == Picking && c.loop == Busy(o)
    ensures ConnInv(c.(loop := loop', ops := c.ops[o := op']))
  {
  }

  lemma CancelBeginFacts(op: Op)
    requires OpInv(op) && op.active > 0 && op.teardown.None?
    ensures HoldMove(op, CancelBegin(ESHUTDOWN)).Some?
    ensures var e := HoldMove(op, CancelBegin(ESHUTDOWN)).value;
      && OpInv(e.op) && e.links.Keep? && e.op.active == op.active
      && e.op.teardown == Some(Cancel(ESHUTDOWN, Start))
      && e.op.receivers == op.receivers && e.op.log == op.log
  {
    HoldKeeps(op, CancelBegin(ESHUTDOWN));
  }

  lemma CancelEndFacts(op: Op)
    requires OpInv(op) && HoldMove(op, CancelEnd).Some?
    ensures var e := HoldMove(op, CancelEnd).value;
      && OpInv(e.op) && e.links.Keep? && e.op.active == op.active && e.op.teardown.None?
      && e.op.receivers == op.receivers && e.op.log.winner == op.log.winner
  {
    HoldKeeps(op, CancelEnd);
  }

  lemma PickResult(c: Conn)
    requires Apply(c, Pick).Some?
    ensures c.loop.Picking? && c.list != []
    ensures var o := c.list[|c.list| - 1];
      o in c.ops && HoldMove(c.ops[o], CancelBegin(ESHUTDOWN)).Some?
      && (Apply(c, Pick).value
          == c.(loop := Busy(o), ops := c.ops[o := HoldMove(c.ops[o], CancelBegin(ESHUTDOWN)).value.op]))
  {
  }

  lemma DropResult(c: Conn)
    requires Apply(c, Drop).Some?
    ensures c.loop.Busy? && c.loop.op in c.ops && HoldMove(c.ops[c.loop.op], CancelEnd).Some?
    ensures Apply(c, Drop).value
         == c.(loop := Picking, ops := c.ops[c.loop.op := HoldMove(c.ops[c.loop.op], CancelEnd).value.op])
  {
  }

  /** Taking and dropping the teardown thread's hold changes no identity and no result. */
  lemma HoldLeaves(op: Op, s: Step)
    requires HoldMove(op, s).Some?
    ensures var op' := HoldMove(op, s).value.op;
      op'.cfg == op.cfg && op'.tag == op.tag && op'.errno == op.errno && HasId(op') == HasId(op)
  {
  }

  lemma PickKeeps(c: Conn)
    requires ConnInv(c) && Apply(c, Pick).Some?
    ensures ConnInv(Apply(c, Pick).value)
  {
    PickResult(c);
    var o := c.list[|c.list| - 1];
    CancelBeginFacts(c.ops[o]);
    HoldKeepsConn(c, o, HoldMove(c.ops[o], CancelBegin(ESHUTDOWN)).value.op, Busy(o));
  }

  lemma DropKeeps(c: Conn)
    requires ConnInv(c) && Apply(c, Drop).Some?
    ensures ConnInv(Apply(c, Drop).value)
  {
    DropResult(c);
    CancelEndFacts(c.ops[c.loop.op]);
    HoldKeepsConn(c, c.loop.op, HoldMove(c.ops[c.loop.op], CancelEnd).value.op, Picking);
  }

  lemma CycleKeeps(c: Conn, cycle: int)
    requires ConnInv(c)
    ensures ConnInv(c.(opCycle := cycle))
  {
  }

  function NextCycle(c: Conn): int {
    c.opCycle + 1
  }

  lemma TakeIdResult(c: Conn, o: nat)
    ensures Apply(c, TakeId(o)) == OnOp(c.(opCycle := NextCycle(c)), o, AssignId(NextCycle(c)))
  {
  }

  lemma TakeIdKeeps(c: Conn, o: nat)
    requires ConnInv(c) && Apply(c, TakeId(o)).Some?
    ensures ConnInv(Apply(c, TakeId(o)).value)
  {
    TakeIdResult(c, o);
    CycleKeeps(c, NextCycle(c));
    OnOpKeeps(c.(opCycle := NextCycle(c)), o, AssignId(NextCycle(c)));
  }

  lemma StateKeeps(c: Conn, e: Event)
    requires ConnInv(c) && Apply(c, e).Some?
    requires e.Enable? || e.Fail? || e.StartTeardown? || e.EndLoop?
    ensures ConnInv(Apply(c, e).value)
  {
  }

  /** Every event keeps the connection's invariant. */
  lemma ApplyKeeps(c: Conn, e: Event)
    requires ConnInv(c) && Apply(c, e).Some?
    ensures ConnInv(Apply(c, e).value)
  {
    match e
    case Create(o, sync, user) => CreateKeeps(c, o, Outgoing(sync, user));
    case TakeId(o) => TakeIdKeeps(c, o);
    case Receive(data, o) => ReceiveKeeps(c, data, o);
    case OpStep(o, s) => OnOpKeeps(c, o, s);
    case Pick => PickKeeps(c);
    case Drop => DropKeeps(c);
    case _ => StateKeeps(c, e);
  }

  lemma {:induction false} ExecKeeps(c: Conn, es: seq<Event>)
    requires ConnInv(c) && Exec(c, es).Some?
    ensures ConnInv(Exec(c, es).value)
    decreases |es|
  {
    if es != [] {
      ApplyKeeps(c, es[0]);
      ExecKeeps(Apply(c, es[0]).value, es[1..]);
    }
  }

  /** A step that is no connection event can be taken as it is. */
  lemma CanStep(c: Conn, o: nat, s: Step)
    requires o in c.ops && Move(c.state.Enabled?, c.ops[o], s).Some? && !ConnectionStep(s)
    ensures Apply(c, OpStep(o, s)).Some? && o in Apply(c, OpStep(o, s)).value.ops
    ensures Apply(c, OpStep(o, s)).value.ops[o] == Move(c.state.Enabled?, c.ops[o], s).value.op
    ensures Apply(c, OpStep(o, s)).value.loop == c.loop
  {
  }

  lemma ExecCons(c: Conn, e: Event, es: seq<Event>)
    requires Apply(c, e).Some?
    ensures Exec(c, [e] + es) == Exec(Apply(c, e).value, es)
  {
    assert ([e] + es)[1..] == es;
  }

  lemma {:induction false} ExecAppend(c: Conn, es: seq<Event>, fs: seq<Event>)
    requires Exec(c, es).Some?
    ensures Exec(c, es + fs) == Exec(Exec(c, es).value, fs)
    decreases |es|
  {
    if es == [] {
      assert es + fs == fs;
    } else {
      ExecFirst(c, es);
      ExecAppend(Apply(c, es[0]).value, es[1..], fs);
      assert es + fs == [es[0]] + (es[1..] + fs);
      ExecCons(c, es[0], es[1..] + fs);
    }
  }

  lemma ExecFirst(c: Conn, es: seq<Event>)
    requires es != [] && Exec(c, es).Some?
    ensures Apply(c, es[0]).Some? && Exec(c, es) == Exec(Apply(c, es[0]).value, es[1..])
  {
  }

  /** The invariant holds in every reachable state. */
  lemma ReachableInv(c: Conn)
    requires Reachable(c)
    ensures ConnInv(c)
  {
    var es :| Exec(NEW_CONN, es) == Some(c);
    ExecKeeps(NEW_CONN, es);
  }
}
