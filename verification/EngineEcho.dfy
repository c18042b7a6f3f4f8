/** The runs that the engine is for: a request that is answered, in both directions, from every enabled state. */
module EngineEcho {
  import opened Common
  import opened Errno
  import opened Engine
  import opened EngineInvariant
  import opened EngineRuns
  import opened EngineIds
  import opened EngineCause

  // ------------------------------------------------------------------- messages

  /** A message on the wire: size, id and type, the result, two bytes of padding, the payload. */
  function Message(id: u16, kind: byte, result: byte, payload: seq<byte>): seq<byte>
    requires 8 + |payload| < 0x1_0000
  {
    var size := 8 + |payload|;
    [size % 0x100, size / 0x100, id % 0x100, id / 0x100, kind, result, 0, 0] + payload
  }

  /** The receiving side reads back what was written. */
  lemma MessageReadBack(id: u16, kind: byte, result: byte, payload: seq<byte>)
    requires 8 + |payload| < 0x1_0000
    ensures var data := Message(id, kind, result, payload);
      && WellFormedMessage(data) && MessageSize(data) == |data| && MessageId(data) == id
      && (IsResponse(data) <==> kind / 0x80 == 1) && data[5] == result
      && data[HEADER..MessageSize(data)] == payload
  {
  }

  // ------------------------------------------------------------------ one more event

  lemma Extend(c0: Conn, es: seq<Event>, c: Conn, e: Event)
    requires Exec(c0, es) == Some(c) && Apply(c, e).Some?
    ensures Exec(c0, es + [e]) == Apply(c, e)
  {
    ExecAppend(c0, es, [e]);
    ExecCons(c, e, []);
    assert [e] == [e] + [];
  }

  /** One more step on operation o of an enabled connection. */
  lemma Advance(c0: Conn, es: seq<Event>, c: Conn, o: nat, s: Step) returns (es': seq<Event>, c': Conn)
    requires Exec(c0, es) == Some(c) && o in c.ops && c.state.Enabled?
    requires Move(true, c.ops[o], s).Some? && !ConnectionStep(s)
    ensures es' == es + [OpStep(o, s)] && Exec(c0, es') == Some(c')
    ensures c'.state.Enabled? && c'.ops == c.ops[o := Move(true, c.ops[o], s).value.op] && c'.opCycle == c.opCycle
  {
    es' := es + [OpStep(o, s)];
    Extend(c0, es, c, OpStep(o, s));
    c' := Apply(c, OpStep(o, s)).value;
  }

  // ----------------------------------------------------------------- an outgoing request

  /** A synchronous request that the host device has taken and reported as sent. */
  function Sent(user: seq<byte>, cycle: nat): Op {
    Outgoing(true, user).(tag := Tag(IdOf(cycle), cycle), errno := EINPROGRESS, kref := 2, active := 1,
      creator := Awaiting, inflight := true, accepted := true, request := Reported)
  }

  lemma NumberedRun(c0: Conn, o: nat, user: seq<byte>) returns (es: seq<Event>, c: Conn)
    requires ConnInv(c0) && c0.state.Enabled? && o !in c0.ops && c0.opCycle >= 0
    ensures Exec(c0, es) == Some(c) && c.state.Enabled?
    ensures (c.ops == c0.ops[o := Outgoing(true, user).(tag := Tag(IdOf(c0.opCycle + 1), c0.opCycle + 1),
                                                        creator := Numbered)])
  {
    es := [Create(o, true, user)];
    assert Exec(c0, []) == Some(c0);
    Extend(c0, [], c0, es[0]);
    assert [] + [es[0]] == es;
    c := Apply(c0, es[0]).value;
    Extend(c0, es, c, TakeId(o));
    c := Apply(c, TakeId(o)).value;
    es := es + [TakeId(o)];
  }

  /** A synchronous request about to be handed over. */
  function Ready(user: seq<byte>, cycle: nat): Op {
    Outgoing(true, user).(tag := Tag(IdOf(cycle), cycle), creator := Armed, errno := EINPROGRESS)
  }

  lemma HandedOver(user: seq<byte>, cycle: nat)
    ensures Move(true, Ready(user, cycle), HandOver(0)).Some?
    ensures Move(true, Ready(user, cycle), HandOver(0)).value.op == Sent(user, cycle).(request := InDevice)
  {
  }

  lemma ArmedRun(c0: Conn, o: nat, user: seq<byte>) returns (es: seq<Event>, c: Conn)
    requires ConnInv(c0) && c0.state.Enabled? && o !in c0.ops && c0.opCycle >= 0
    ensures Exec(c0, es) == Some(c) && c.state.Enabled?
    ensures c.ops == c0.ops[o := Ready(user, c0.opCycle + 1)]
  {
    es, c := NumberedRun(c0, o, user);
    es, c := Advance(c0, es, c, o, Arm);
  }

  /** The host device has taken the request. */
  lemma TakenRun(c0: Conn, o: nat, user: seq<byte>) returns (es: seq<Event>, c: Conn)
    requires ConnInv(c0) && c0.state.Enabled? && o !in c0.ops && c0.opCycle >= 0
    ensures Exec(c0, es) == Some(c) && c.state.Enabled?
    ensures c.ops == c0.ops[o := Sent(user, c0.opCycle + 1).(request := InDevice)]
  {
    es, c := ArmedRun(c0, o, user);
    HandedOver(user, c0.opCycle + 1);
    es, c := Advance(c0, es, c, o, HandOver(0));
  }

  lemma SentRun(c0: Conn, o: nat, user: seq<byte>) returns (es: seq<Event>, c: Conn)
    requires ConnInv(c0) && c0.state.Enabled? && o !in c0.ops && c0.opCycle >= 0
    ensures Exec(c0, es) == Some(c) && c.state.Enabled?
    ensures c.ops == c0.ops[o := Sent(user, c0.opCycle + 1)]
  {
    es, c := TakenRun(c0, o, user);
    es, c := Advance(c0, es, c, o, SendReport(0));
    es, c := Advance(c0, es, c, o, ClearRequest);
  }

  /** The only operation in flight under the id is the one that is found. */
  lemma LookupFinds(c: Conn, o: nat, id: int)
    requires ConnInv(c) && o in c.ops && !c.ops[o].cfg.incoming && c.ops[o].active > 0 && c.ops[o].tag.id == id
    requires forall q :: InFlight(c, q) && q != o ==> c.ops[q].tag.id != id
    ensures (forall q :: q in c.list ==> q in c.ops) && FindOutgoing(c.ops, c.list, id) == Some(o)
  {
    FindOutgoingFinds(c.ops, c.list, id);
    assert InFlight(c, o);
    match FindOutgoing(c.ops, c.list, id)
    case None =>
    case Some(q) => assert InFlight(c, q);
  }

  /** The response finds the operation that waits for it. */
  lemma FoundRun(c0: Conn, es: seq<Event>, c: Conn, o: nat, data: seq<byte>) returns (es': seq<Event>, c': Conn)
    requires Exec(c0, es) == Some(c) && c.state.Enabled? && o in c.ops && !c.ops[o].cfg.incoming
    requires (forall q :: q in c.list ==> q in c.ops) && FindOutgoing(c.ops, c.list, c.ops[o].tag.id) == Some(o)
    requires WellFormedMessage(data) && IsResponse(data) && MessageId(data) == c.ops[o].tag.id
    ensures Exec(c0, es') == Some(c') && c'.state.Enabled?
    ensures c'.ops == c.ops[o := Get(c.ops[o]).(receivers := c.ops[o].receivers + [Found(data)])]
  {
    Extend(c0, es, c, Receive(data, o));
    es' := es + [Receive(data, o)];
    c' := Apply(c, Receive(data, o)).value;
  }

  /** What a receiver leaves behind that has delivered the response. */
  function Delivered(op: Op, data: seq<byte>): Op
    requires WellFormedMessage(data) && |op.respBuf| == HEADER + op.cfg.respSize
  {
    op.(errno := ResponseErrno(data, op.cfg.respSize), receivers := [Putting], work := Queued,
      respBuf := CopyResponse(op.respBuf, data, op.cfg.respSize),
      log := op.log.(wins := op.log.wins + 1, winner := Some(data), queueCalls := op.log.queueCalls + 1))
  }

  /** The response wins. */
  lemma WonRun(c0: Conn, es: seq<Event>, c: Conn, o: nat, data: seq<byte>) returns (es': seq<Event>, c': Conn)
    requires Exec(c0, es) == Some(c) && c.state.Enabled? && o in c.ops
    requires c.ops[o].receivers == [Found(data)] && c.ops[o].errno == EINPROGRESS && WellFormedMessage(data)
    ensures Exec(c0, es') == Some(c') && c'.state.Enabled? && o in c'.ops
    ensures (c'.ops[o] == c.ops[o].(errno := ResponseErrno(data, c.ops[o].cfg.respSize), receivers := [Copying(data)],
                                    log := c.ops[o].log.(wins := c.ops[o].log.wins + 1, winner := Some(data))))
  {
    FinalResponse(data, c.ops[o].cfg.respSize);
    es', c' := Advance(c0, es, c, o, ReceiverDecide(0));
    assert c'.ops[o].receivers == [Copying(data)];
  }

  lemma DeliveredRun(c0: Conn, es: seq<Event>, c: Conn, o: nat, data: seq<byte>) returns (es': seq<Event>, c': Conn)
    requires Exec(c0, es) == Some(c) && c.state.Enabled? && o in c.ops
    requires c.ops[o].receivers == [Found(data)] && c.ops[o].errno == EINPROGRESS && c.ops[o].work.Idle?
    requires WellFormedMessage(data) && |c.ops[o].respBuf| == HEADER + c.ops[o].cfg.respSize
    ensures Exec(c0, es') == Some(c') && c'.state.Enabled? && o in c'.ops && c'.ops[o] == Delivered(c.ops[o], data)
  {
    es', c' := WonRun(c0, es, c, o, data);
    es', c' := Advance(c0, es', c', o, ReceiverCopy(0));
    assert c'.ops[o].receivers == [Queueing];
    es', c' := Advance(c0, es', c', o, ReceiverQueue(0));
    assert c'.ops[o].receivers == [Putting];
  }

  lemma FinalResponse(data: seq<byte>, respSize: nat)
    requires |data| >= HEADER
    ensures Final(ResponseErrno(data, respSize))
  {
  }

  lemma CollectedRun(c0: Conn, es: seq<Event>, c: Conn, o: nat) returns (es': seq<Event>, c': Conn)
    requires Exec(c0, es) == Some(c) && c.state.Enabled? && o in c.ops
    requires var op := c.ops[o];
      && op.work.Queued? && !op.cfg.incoming && op.cfg.sync && op.creator.Awaiting?
      && |op.respBuf| == HEADER + op.cfg.respSize
    ensures Exec(c0, es') == Some(c') && o in c'.ops && c'.ops[o].log.outcome == Some(c.ops[o].errno)
    ensures c'.ops[o].user == if c.ops[o].errno == 0 then c.ops[o].respBuf[HEADER..] else c.ops[o].user
  {
    es', c' := Advance(c0, es, c, o, RunCallback);
    es', c' := Advance(c0, es', c', o, CompletionSeen);
    es', c' := Advance(c0, es', c', o, Collect);
  }

  /** The response brings its own payload on success, and leaves the buffer's on failure. */
  lemma CopiedPayload(user: seq<byte>, data: seq<byte>)
    requires WellFormedMessage(data)
    ensures var buf := CopyResponse(seq(HEADER + |user|, _ => 0), data, |user|);
      && |buf| == HEADER + |user|
      && (ResponseErrno(data, |user|) == 0 ==> buf[HEADER..] == data[HEADER..HEADER + |user|])
  {
  }

  /**
   From every reachable enabled state, whatever else is in flight: a new synchronous request can be sent, and any
   response with its id can reach the caller.  The caller gets the payload when the status byte is zero and the size is
   the expected one, -EMSGSIZE when only the size is wrong, and the error that the status byte stands for otherwise.
   */
  lemma EveryResponseCanArrive(c: Conn, o: nat, user: seq<byte>, data: seq<byte>)
    requires Reachable(c) && c.state.Enabled? && o !in c.ops
    requires WellFormedMessage(data) && IsResponse(data) && MessageId(data) == (c.opCycle + 1) % CYCLES % 65535 + 1
    requires forall q :: InFlight(c, q) ==> c.ops[q].tag.id != MessageId(data)
    ensures exists es, c' :: Exec(c, es) == Some(c') && o in c'.ops
              && Got(c'.ops[o], data, user)
  {
    ReachableIds(c);
    var es, c1 := SentRun(c, o, user);
    ExecKeeps(c, es);
    forall q | InFlight(c1, q) && q != o ensures c1.ops[q].tag.id != c1.ops[o].tag.id {
      assert InFlight(c, q);
    }
    LookupFinds(c1, o, MessageId(data));
    var c2;
    es, c2 := FoundRun(c, es, c1, o, data);
    assert c2.ops[o].receivers == [Found(data)];
    es, c2 := DeliveredRun(c, es, c2, o, data);
    CopiedPayload(user, data);
    es, c2 := CollectedRun(c, es, c2, o);
    GotIt(c2.ops[o], data, user);
  }

  /** What the caller finds, by the status byte and the size of the response. */
  predicate Got(op: Op, data: seq<byte>, user: seq<byte>)
    requires |data| >= HEADER
  {
    if data[5] != 0 then op.log.outcome == Some(StatusMap(data[5])) && op.user == user
    else if MessageSize(data) != 8 + |user| then op.log.outcome == Some(EMSGSIZE) && op.user == user
    else MessageSize(data) <= |data| && op.log.outcome == Some(0) && op.user == data[8..MessageSize(data)]
  }

  lemma GotIt(op: Op, data: seq<byte>, user: seq<byte>)
    requires WellFormedMessage(data)
    requires op.log.outcome == Some(ResponseErrno(data, |user|))
    requires op.user == if op.log.outcome == Some(0) then data[HEADER..HEADER + |user|] else user
    ensures Got(op, data, user)
  {
    StatusIsFinal(data[5]);
  }

  // ---------------------------------------------------------------------- the errors

  /** The caller has been told errno, and its buffer is as it was. */
  predicate Told(op: Op, errno: int, user: seq<byte>) {
    op.log.outcome == Some(errno) && op.user == user
  }

  /** Every error of the hand-over can come back. */
  lemma EveryRefusalCanReturn(c: Conn, o: nat, user: seq<byte>, ret: int)
    requires Reachable(c) && c.state.Enabled? && o !in c.ops && ret != 0
    ensures exists es, c' :: Exec(c, es) == Some(c') && o in c'.ops && Told(c'.ops[o], ret, user)
  {
    ReachableIds(c);
    var es, c' := ArmedRun(c, o, user);
    es, c' := Advance(c, es, c', o, HandOver(ret));
    assert Told(c'.ops[o], ret, user);
  }

  /** Every error that the host device can report on a request can come back. */
  lemma EverySendErrorCanReturn(c: Conn, o: nat, user: seq<byte>, status: int)
    requires Reachable(c) && c.state.Enabled? && o !in c.ops && ErrorResult(status)
    ensures exists es, c' :: Exec(c, es) == Some(c') && o in c'.ops && Told(c'.ops[o], Stored(status), user)
  {
    ReachableIds(c);
    var es, c' := TakenRun(c, o, user);
    es, c' := Advance(c, es, c', o, SendReport(status));
    es, c' := Advance(c, es, c', o, SendReportQueue);
    es, c' := CollectedRun(c, es, c', o);
    assert Told(c'.ops[o], Stored(status), user);
  }

  /** What a caller that gives up leaves for its work item. */
  function GivenUp(op: Op, errno: int): Op {
    op.(errno := errno, creator := Cancelling, work := Queued, syncCancel := Some(Cancel(errno, Counting)),
      log := op.log.(wins := op.log.wins + 1, queueCalls := op.log.queueCalls + 1))
  }

  lemma DecidedRun(c0: Conn, es: seq<Event>, c: Conn, o: nat, interrupted: bool)
    returns (es': seq<Event>, c': Conn)
    requires Exec(c0, es) == Some(c) && c.state.Enabled? && o in c.ops && !c.ops[o].cfg.incoming
    requires c.ops[o].creator.Awaiting? && c.ops[o].errno == EINPROGRESS
    ensures Exec(c0, es') == Some(c') && c'.state.Enabled? && o in c'.ops
    ensures var errno := if interrupted then ECANCELED else ETIMEDOUT;
      c'.ops[o] == c.ops[o].(errno := errno, creator := Cancelling, syncCancel := Some(Cancel(errno, Killing)),
        log := c.ops[o].log.(wins := c.ops[o].log.wins + 1))
  {
    es', c' := Advance(c0, es, c, o, GiveUp(interrupted));
    es', c' := Advance(c0, es', c', o, CancelStep(Sync));
  }

  lemma GivenUpRun(c0: Conn, es: seq<Event>, c: Conn, o: nat, interrupted: bool)
    returns (es': seq<Event>, c': Conn)
    requires Exec(c0, es) == Some(c) && c.state.Enabled? && o in c.ops && !c.ops[o].cfg.incoming
    requires c.ops[o].creator.Awaiting? && c.ops[o].errno == EINPROGRESS
    requires c.ops[o].request.Reported? && c.ops[o].work.Idle?
    ensures Exec(c0, es') == Some(c') && c'.state.Enabled? && o in c'.ops
    ensures c'.ops[o] == GivenUp(c.ops[o], if interrupted then ECANCELED else ETIMEDOUT)
  {
    es', c' := DecidedRun(c0, es, c, o, interrupted);
    es', c' := Advance(c0, es', c', o, CancelStep(Sync));
    es', c' := Advance(c0, es', c', o, CancelStep(Sync));
  }

  /** The work item runs, and the operation is no longer active. */
  lemma InactiveRun(c0: Conn, es: seq<Event>, c: Conn, o: nat) returns (es': seq<Event>, c': Conn)
    requires Exec(c0, es) == Some(c) && c.state.Enabled? && o in c.ops && !c.ops[o].cfg.incoming && c.ops[o].cfg.sync
    requires c.ops[o].work.Queued? && c.ops[o].active == 1 && c.ops[o].waiters == 0
    ensures Exec(c0, es') == Some(c') && c'.state.Enabled? && o in c'.ops
    ensures (c'.ops[o] == c.ops[o].(work := Dropped, completed := true, active := 0,
                                    log := c.ops[o].log.(runs := c.ops[o].log.runs + 1)))
  {
    es', c' := Advance(c0, es, c, o, RunCallback);
    es', c' := Advance(c0, es', c', o, WorkPutActive);
  }

  lemma CheckedRun(c0: Conn, es: seq<Event>, c: Conn, o: nat) returns (es': seq<Event>, c': Conn)
    requires Exec(c0, es) == Some(c) && c.state.Enabled? && o in c.ops
    requires c.ops[o].syncCancel.Some? && c.ops[o].syncCancel.value.phase.Counting? && c.ops[o].active == 0
    ensures Exec(c0, es') == Some(c') && c'.state.Enabled? && o in c'.ops
    ensures (c'.ops[o] == c.ops[o].(waiters := c.ops[o].waiters + 1,
                                    syncCancel := Some(Cancel(c.ops[o].syncCancel.value.errno, Leaving))))
  {
    es', c' := Advance(c0, es, c, o, CancelStep(Sync));
    es', c' := Advance(c0, es', c', o, CancelStep(Sync));
  }

  lemma LeftRun(c0: Conn, es: seq<Event>, c: Conn, o: nat) returns (es': seq<Event>, c': Conn)
    requires Exec(c0, es) == Some(c) && c.state.Enabled? && o in c.ops
    requires c.ops[o].syncCancel.Some? && c.ops[o].syncCancel.value.phase.Counting? && c.ops[o].active == 0
    ensures Exec(c0, es') == Some(c') && c'.state.Enabled? && o in c'.ops
    ensures c'.ops[o] == c.ops[o].(syncCancel := None, creator := Collecting)
  {
    es', c' := CheckedRun(c0, es, c, o);
    es', c' := Advance(c0, es', c', o, CancelStep(Sync));
  }

  /** A caller whose request has been sent can always give up, and then gets -ETIMEDOUT or, after a signal,
      -ECANCELED. */
  lemma GivingUpCanReturn(c: Conn, o: nat, user: seq<byte>, interrupted: bool)
    requires Reachable(c) && c.state.Enabled? && o !in c.ops
    ensures exists es, c' :: Exec(c, es) == Some(c') && o in c'.ops
              && Told(c'.ops[o], if interrupted then -125 else -110, user)
  {
    ReachableIds(c);
    var es, c' := SentRun(c, o, user);
    es, c' := GivenUpRun(c, es, c', o, interrupted);
    es, c' := InactiveRun(c, es, c', o);
    es, c' := LeftRun(c, es, c', o);
    es, c' := Advance(c, es, c', o, Collect);
    assert Told(c'.ops[o], if interrupted then -125 else -110, user);
  }

  // ----------------------------------------------------------------- an incoming request

  lemma ReceivedRun(c0: Conn, o: nat, data: seq<byte>) returns (es: seq<Event>, c: Conn)
    requires c0.state.Enabled? && o !in c0.ops
    requires WellFormedMessage(data) && !IsResponse(data) && MessageSize(data) >= HEADER
    ensures Exec(c0, es) == Some(c) && c.state.Enabled? && o in c.ops && c.ops[o] == Incoming(data)
  {
    es := [Receive(data, o)];
    assert Exec(c0, []) == Some(c0);
    Extend(c0, [], c0, es[0]);
    assert [] + [es[0]] == es;
    c := Apply(c0, es[0]).value;
  }

  lemma ActivatedRun(c0: Conn, o: nat, data: seq<byte>) returns (es: seq<Event>, c: Conn)
    requires c0.state.Enabled? && o !in c0.ops
    requires WellFormedMessage(data) && !IsResponse(data) && MessageSize(data) >= HEADER
    ensures Exec(c0, es) == Some(c) && c.state.Enabled? && o in c.ops
    ensures c.ops[o] == Incoming(data).(active := 1, creator := InActive)
  {
    es, c := ReceivedRun(c0, o, data);
    es, c := Advance(c0, es, c, o, RequestActivate);
  }

  lemma QueuedRun(c0: Conn, o: nat, data: seq<byte>) returns (es: seq<Event>, c: Conn)
    requires c0.state.Enabled? && o !in c0.ops
    requires WellFormedMessage(data) && !IsResponse(data) && MessageSize(data) >= HEADER
    ensures Exec(c0, es) == Some(c) && c.state.Enabled? && o in c.ops
    ensures (c.ops[o] == Incoming(data).(active := 1, creator := Gone, errno := EINPROGRESS, work := Queued,
                                         log := EMPTY_LOG.(queueCalls := 1)))
  {
    es, c := ActivatedRun(c0, o, data);
    es, c := Advance(c0, es, c, o, RequestArm);
    es, c := Advance(c0, es, c, o, RequestQueue);
  }

  lemma HandledRun(c0: Conn, o: nat, data: seq<byte>, status: int) returns (es: seq<Event>, c: Conn)
    requires c0.state.Enabled? && o !in c0.ops && status != EINPROGRESS
    requires WellFormedMessage(data) && !IsResponse(data) && MessageSize(data) >= HEADER
    ensures Exec(c0, es) == Some(c) && c.state.Enabled? && o in c.ops
    ensures var op := c.ops[o];
      && op.work == Responding(status) && op.errno == EINPROGRESS
      && op.cfg == Incoming(data).cfg && op.tag.id == MessageId(data)
  {
    es, c := QueuedRun(c0, o, data);
    es, c := Advance(c0, es, c, o, HandlerReturns(status, true));
  }

  lemma RespondedRun(c0: Conn, es: seq<Event>, c: Conn, o: nat) returns (es': seq<Event>, c': Conn)
    requires Exec(c0, es) == Some(c) && c.state.Enabled? && o in c.ops && c.ops[o].work.Responding?
    requires c.ops[o].errno == EINPROGRESS && c.ops[o].work.status != EINPROGRESS && !c.ops[o].cfg.unidirectional
    ensures Exec(c0, es') == Some(c') && o in c'.ops && c'.ops[o].response.RespInDevice?
    ensures c'.ops[o].log.answer == Some(Answer(c.ops[o].tag.id, ErrnoMap(c.ops[o].work.status)))
  {
    es', c' := Advance(c0, es, c, o, RecordStatus);
    es', c' := Advance(c0, es', c', o, SendResponse(0));
  }

  /**
   From every enabled state, every request can be answered with every status that its handler may return: the response
   that the host device takes carries the id of the request and the wire byte of the status.
   */
  lemma EveryRequestCanBeAnswered(c: Conn, o: nat, data: seq<byte>, status: int)
    requires c.state.Enabled? && o !in c.ops && status != EINPROGRESS
    requires WellFormedMessage(data) && !IsResponse(data) && MessageSize(data) >= HEADER && MessageId(data) != 0
    ensures exists es, c' :: Exec(c, es) == Some(c') && o in c'.ops && c'.ops[o].response.RespInDevice?
              && c'.ops[o].log.answer == Some(Answer(MessageId(data), ErrnoMap(status)))
  {
    var es, c' := HandledRun(c, o, data, status);
    es, c' := RespondedRun(c, es, c', o);
  }
}
