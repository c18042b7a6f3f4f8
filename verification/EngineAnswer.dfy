/** A request is answered: with its own id, and with the status that its handler returned. */
module EngineAnswer {
  import opened Common
  import opened Errno
  import opened Engine
  import opened EngineInvariant
  import opened EngineRuns
  import opened EngineLift
  import opened EngineFault
  import opened EngineStory
  import opened EngineCause

  // ----------------------------------------------------------- one operation

  /** The handler has returned and the work has nothing more to send. */
  predicate PastSending(work: Work) {
    work.Called? || work.Dropped? || work.Finished?
  }

  /** What has happened to an operation so far. */
  datatype Facts = Facts(
    torn: bool,          // teardown has started
    refused: bool,       // a response was refused
    sent: bool,          // a response was taken
    stepped: bool,       // the teardown canceller has taken a step
    overtaken: bool)     // and that before the request was queued

  /** The canceller has made sure that the handler is not at work. */
  predicate Flushing(op: Op) {
    !op.cfg.unidirectional && op.teardown.Some? && !op.teardown.value.phase.Start?
  }

  /** Teardown has decided; it has not cut off a handler that it could have waited for. */
  predicate ByTeardown(f: Facts, op: Op) {
    && f.torn && op.errno == ESHUTDOWN
    && (op.work.Idle? ==> f.stepped)
    && (!op.work.Idle? ==> f.overtaken || (op.work.Finished? && op.log.handled.None?))
  }

  /** What has become of the handler's status. */
  predicate Answering(f: Facts, op: Op) {
    && (op.work.Idle? || op.work.Queued? ==> op.log.handled.None?)
    && (op.work.Responding? ==> op.log.handled == Some(op.work.status))
    && (op.work.Sending? ==>
          op.log.handled == Some(op.work.status) && op.errno == Stored(op.work.status) && op.log.answer.None?)
    && (Final(op.errno) ==>
          || ByTeardown(f, op)
          || (op.log.handled.Some? && op.errno == Stored(op.log.handled.value) && !op.work.Responding?))
    && (op.log.handled.Some? && !op.work.Responding? ==> Final(op.errno))
    && (Flushing(op) ==> f.stepped && (op.work.Idle? || op.work.Finished? || f.overtaken))
    && (op.log.answer.None? <==> op.response.NoResponse?)
    && (op.log.answer.Some? ==>
          && f.sent && op.log.handled.Some?
          && op.log.answer.value == Answer(op.tag.id, ErrnoMap(op.log.handled.value)))
    && (!op.cfg.unidirectional && op.log.handled.Some? && PastSending(op.work) && op.log.answer.None? ==>
          f.refused || (f.torn && op.errno == ESHUTDOWN && f.overtaken))
    && (op.teardown.Some? ==> f.torn && op.teardown.value.errno == ESHUTDOWN)
    && (op.cfg.unidirectional ==> !op.work.Sending? && op.log.answer.None?)
  }

  lemma HandleAnswers(f: Facts, enabled: bool, op: Op, s: Step)
    requires OpInv(op) && op.cfg.incoming && Answering(f, op) && WorkMove(enabled, op, s).Some?
    requires s.HandlerReturns? || s.NoHandler?
    ensures Answering(f, WorkMove(enabled, op, s).value.op)
  {
  }

  lemma RecordAnswers(f: Facts, enabled: bool, op: Op)
    requires OpInv(op) && op.cfg.incoming && Answering(f, op)
    requires WorkMove(enabled, op, RecordStatus).Some?
    ensures Answering(f, WorkMove(enabled, op, RecordStatus).value.op)
  {
  }

  lemma SendAnswers(f: Facts, enabled: bool, op: Op, ret: int)
    requires OpInv(op) && op.cfg.incoming && Answering(f, op)
    requires WorkMove(enabled, op, SendResponse(ret)).Some?
    requires if ret == 0 then f.sent else f.refused
    ensures Answering(f, WorkMove(enabled, op, SendResponse(ret)).value.op)
  {
  }

  lemma WorkEndAnswers(f: Facts, enabled: bool, op: Op, s: Step)
    requires OpInv(op) && op.cfg.incoming && Answering(f, op) && WorkMove(enabled, op, s).Some?
    requires s.WorkPutActive? || s.WorkPut?
    ensures Answering(f, WorkMove(enabled, op, s).value.op)
  {
  }

  lemma DeviceAnswers(f: Facts, op: Op, s: Step)
    requires Answering(f, op) && op.cfg.incoming && OpInv(op) && DeviceMove(op, s).Some?
    ensures Answering(f, DeviceMove(op, s).value.op)
  {
  }

  lemma InterruptAnswers(f: Facts, enabled: bool, op: Op, s: Step)
    requires OpInv(op) && op.cfg.incoming && Answering(f, op) && InterruptMove(enabled, op, s).Some?
    requires s.RequestQueue? && f.stepped ==> f.overtaken
    ensures Answering(f, InterruptMove(enabled, op, s).value.op)
  {
  }

  lemma CancelAnswers(f: Facts, op: Op)
    requires OpInv(op) && op.cfg.incoming && Answering(f, op) && op.teardown.Some?
    requires PhaseMove(op, Teardown).Some? && f.stepped
    ensures Answering(f, PhaseMove(op, Teardown).value.op)
  {
    CancelShape(op, Teardown);
    TeardownErrno(op);
    TeardownWaits(op);
    CancelledAnswers(f, op, PhaseMove(op, Teardown).value.op);
  }

  /** A canceller leaves its start only when the handler is not at work. */
  lemma TeardownWaits(op: Op)
    requires OpInv(op) && op.cfg.incoming && op.teardown.Some? && PhaseMove(op, Teardown).Some?
    ensures PhaseMove(op, Teardown).value.op.work == op.work
    ensures Flushing(PhaseMove(op, Teardown).value.op) ==> Flushing(op) || op.work.Idle? || op.work.Finished?
  {
  }

  lemma CancelledAnswers(f: Facts, op: Op, op': Op)
    requires Answering(f, op) && op.teardown.Some? && op'.teardown.Some? && f.stepped
    requires op'.cfg == op.cfg && op'.response == op.response && op'.tag == op.tag && op'.work == op.work
    requires op'.log.handled == op.log.handled && op'.log.answer == op.log.answer
    requires op'.teardown.value.errno == op.teardown.value.errno
    requires (op'.errno == op.errno
              || (op.errno == EINPROGRESS && op'.errno == Stored(op.teardown.value.errno) && Flushing(op)))
    requires Flushing(op') ==> Flushing(op) || op.work.Idle? || op.work.Finished?
    ensures Answering(f, op')
  {
  }

  /** A teardown canceller writes its own error, over an open result only. */
  lemma TeardownErrno(op: Op)
    requires OpInv(op) && op.cfg.incoming && op.teardown.Some? && PhaseMove(op, Teardown).Some?
    ensures var errno := PhaseMove(op, Teardown).value.op.errno;
      errno == op.errno || (op.errno == EINPROGRESS && errno == Stored(op.teardown.value.errno) && Flushing(op))
  {
  }

  lemma HoldAnswers(f: Facts, op: Op, s: Step)
    requires OpInv(op) && op.cfg.incoming && Answering(f, op) && HoldMove(op, s).Some?
    requires s.CancelBegin? ==> f.torn && s.errno == ESHUTDOWN
    ensures Answering(f, HoldMove(op, s).value.op)
  {
  }

  lemma CancelStepAnswers(f: Facts, op: Op, s: Step)
    requires OpInv(op) && op.cfg.incoming && Answering(f, op) && CancelMove(op, s).Some?
    requires Fitting(f, s)
    ensures Answering(f, CancelMove(op, s).value.op)
  {
    OnlyTeardown(op, s);
    CancelAnswers(f, op);
  }

  /** The facts take account of the step. */
  predicate Fitting(f: Facts, s: Step) {
    && (s.CancelBegin? ==> f.torn && s.errno == ESHUTDOWN)
    && (s == CancelStep(Teardown) ==> f.stepped)
    && (s.RequestQueue? && f.stepped ==> f.overtaken)
  }

  lemma OtherAnswers(f: Facts, enabled: bool, op: Op, s: Step)
    requires OpInv(op) && op.cfg.incoming && Answering(f, op) && Move(enabled, op, s).Some?
    requires Fitting(f, s)
    requires !AgentOf(s).ByWork?
    ensures Answering(f, Move(enabled, op, s).value.op)
  {
    IncomingAgents(enabled, op, s);
    match AgentOf(s)
    case ByDevice => DeviceAnswers(f, op, s);
    case ByInterrupt => InterruptAnswers(f, enabled, op, s);
    case ByCanceller => CancelStepAnswers(f, op, s);
    case ByHold => HoldAnswers(f, op, s);
    case _ =>
  }

  lemma WorkAnswers(f: Facts, enabled: bool, op: Op, s: Step)
    requires OpInv(op) && op.cfg.incoming && Answering(f, op) && WorkMove(enabled, op, s).Some?
    requires !s.SendResponse?
    ensures Answering(f, WorkMove(enabled, op, s).value.op)
  {
    if s.RecordStatus? {
      RecordAnswers(f, enabled, op);
    } else if s.WorkPutActive? || s.WorkPut? {
      WorkEndAnswers(f, enabled, op, s);
    } else {
      HandleAnswers(f, enabled, op, s);
    }
  }

  /** A step that is not the sending of the response. */
  lemma QuietAnswers(f: Facts, enabled: bool, op: Op, s: Step)
    requires OpInv(op) && op.cfg.incoming && Answering(f, op) && Move(enabled, op, s).Some?
    requires Fitting(f, s)
    requires !s.SendResponse?
    ensures Answering(f, Move(enabled, op, s).value.op)
  {
    if AgentOf(s).ByWork? {
      WorkAnswers(f, enabled, op, s);
    } else {
      OtherAnswers(f, enabled, op, s);
    }
  }

  // ------------------------------------------------------------------ its events

  /** The host device, or the state of the connection, refused the response. */
  ghost predicate Refused(es: seq<Event>, o: nat) {
    exists ret: int :: ret != 0 && OpStep(o, SendResponse(ret)) in es
  }

  /** Teardown's canceller took a step before the request was queued for its handler. */
  ghost predicate Overtaken(es: seq<Event>, o: nat) {
    exists i: nat, j: nat ::
      i < j < |es| && es[i] == OpStep(o, CancelStep(Teardown)) && es[j] == OpStep(o, RequestQueue)
  }

  ghost function FactsOf(es: seq<Event>, o: nat): Facts {
    Facts(StartTeardown in es, Refused(es, o), OpStep(o, SendResponse(0)) in es,
          OpStep(o, CancelStep(Teardown)) in es, Overtaken(es, o))
  }

  ghost predicate Returned(es: seq<Event>, o: nat) {
    exists status: int, made: bool :: OpStep(o, HandlerReturns(status, made)) in es
  }

  /** The request that o was created for is the one that was received. */
  ghost predicate IsRequest(es: seq<Event>, o: nat, op: Op) {
    forall data: seq<byte> :: Receive(data, o) in es && |data| >= HEADER && !IsResponse(data) ==>
      op.cfg.incoming && op.tag.id == MessageId(data) && (op.cfg.unidirectional <==> MessageId(data) == 0)
  }

  ghost predicate HandlerSaid(es: seq<Event>, o: nat, op: Op) {
    && (Returned(es, o) ==> !op.work.Idle? && !op.work.Queued?)
    && (forall status: int :: OpStep(o, HandlerReturns(status, true)) in es ==> op.log.handled == Some(status))
  }

  ghost predicate AnswerStory(es: seq<Event>, o: nat, op: Op) {
    && IsRequest(es, o, op)
    && (op.cfg.incoming ==>
          && HandlerSaid(es, o, op)
          && Answering(FactsOf(es, o), op))
  }

  predicate Implies(f: Facts, g: Facts) {
    && (f.torn ==> g.torn) && (f.refused ==> g.refused) && (f.sent ==> g.sent)
    && (f.stepped ==> g.stepped) && (f.overtaken ==> g.overtaken)
  }

  lemma MonotoneAnswering(f: Facts, g: Facts, op: Op)
    requires Answering(f, op) && Implies(f, g)
    ensures Answering(g, op)
  {
  }

  /** More events do not unsay anything, and each event is a fact. */
  lemma FactsGrow(es: seq<Event>, e: Event, o: nat)
    ensures Implies(FactsOf(es, o), FactsOf(es + [e], o))
    ensures e == OpStep(o, CancelStep(Teardown)) ==> FactsOf(es + [e], o).stepped
    ensures e == OpStep(o, RequestQueue) && FactsOf(es + [e], o).stepped ==> FactsOf(es + [e], o).overtaken
    ensures e == OpStep(o, SendResponse(0)) ==> FactsOf(es + [e], o).sent
    ensures e.OpStep? && e.o == o && e.s.SendResponse? && e.s.ret != 0 ==> FactsOf(es + [e], o).refused
  {
    var all := es + [e];
    assert e in all;
    RefusedGrows(es, e, o);
    if i: nat, j: nat :| i < j < |es| && es[i] == OpStep(o, CancelStep(Teardown)) && es[j] == OpStep(o, RequestQueue) {
      assert all[i] == es[i] && all[j] == es[j];
    }
    if e == OpStep(o, RequestQueue) && OpStep(o, CancelStep(Teardown)) in all {
      var i :| 0 <= i < |all| && all[i] == OpStep(o, CancelStep(Teardown));
      assert all[|es|] == e && i < |es|;
    }
  }

  lemma RefusedGrows(es: seq<Event>, e: Event, o: nat)
    ensures Refused(es, o) ==> Refused(es + [e], o)
    ensures (e.OpStep? && e.o == o && e.s.SendResponse? && e.s.ret != 0) ==> Refused(es + [e], o)
  {
    assert e in es + [e];
    if ret: int :| ret != 0 && OpStep(o, SendResponse(ret)) in es {
      assert OpStep(o, SendResponse(ret)) in es + [e];
    }
  }

  lemma ReturnedGrows(es: seq<Event>, e: Event, o: nat)
    requires Returned(es + [e], o)
    ensures Returned(es, o) || (e.OpStep? && e.o == o && e.s.HandlerReturns?)
  {
    var status: int, made: bool :| OpStep(o, HandlerReturns(status, made)) in es + [e];
  }

  lemma StayAnswer(es: seq<Event>, e: Event, o: nat, op: Op)
    requires AnswerStory(es, o, op) && Apart(e, o)
    ensures AnswerStory(es + [e], o, op)
  {
    if op.cfg.incoming {
      FactsGrow(es, e, o);
      MonotoneAnswering(FactsOf(es, o), FactsOf(es + [e], o), op);
      if Returned(es + [e], o) {
        ReturnedGrows(es, e, o);
      }
    }
  }

  lemma CreateAnswer(es: seq<Event>, e: Event, o: nat, op: Op)
    requires Unmentioned(es, o) && CreatedBy(e, o, op)
    ensures AnswerStory(es + [e], o, op)
  {
    forall data: seq<byte> | Receive(data, o) in es + [e] && |data| >= HEADER && !IsResponse(data)
      ensures op.cfg.incoming && op.tag.id == MessageId(data) && (op.cfg.unidirectional <==> MessageId(data) == 0)
    {
      assert Receive(data, o) !in es;
    }
    if Returned(es + [e], o) {
      ReturnedGrows(es, e, o);
    }
    assert forall status: int :: OpStep(o, HandlerReturns(status, true)) !in es + [e];
  }

  /** The handler returns once, from a queued work item, and its status is kept. */
  lemma HandledOnce(enabled: bool, op: Op, s: Step)
    requires OpInv(op) && op.cfg.incoming && Move(enabled, op, s).Some?
    ensures var op' := Move(enabled, op, s).value.op;
      && (s.HandlerReturns? ==> op.work.Queued? && !op'.work.Idle? && !op'.work.Queued?)
      && (s.HandlerReturns? && s.hasResponse ==> op'.log.handled == Some(s.status))
      && (!s.HandlerReturns? ==> op'.log.handled == op.log.handled)
      && (!op.work.Idle? && !op.work.Queued? ==> !op'.work.Idle? && !op'.work.Queued?)
  {
    IncomingAgents(enabled, op, s);
    match AgentOf(s)
    case ByWork => WorkHandled(enabled, op, s);
    case ByCanceller => CancelHandled(op, s);
    case ByDevice => DeviceHandled(op, s);
    case _ =>
  }

  lemma CancelHandled(op: Op, s: Step)
    requires OpInv(op) && op.cfg.incoming && CancelMove(op, s).Some?
    ensures CancelMove(op, s).value.op.log.handled == op.log.handled && CancelMove(op, s).value.op.work == op.work
  {
    OnlyTeardown(op, s);
    CancelShape(op, Teardown);
    NoCanceller(op);
  }

  lemma NoCanceller(op: Op)
    requires OpInv(op) && op.cfg.incoming && op.teardown.Some?
    ensures !op.teardown.value.phase.CQueueing?
  {
  }

  lemma DeviceHandled(op: Op, s: Step)
    requires OpInv(op) && op.cfg.incoming && DeviceMove(op, s).Some?
    ensures DeviceMove(op, s).value.op.log.handled == op.log.handled && DeviceMove(op, s).value.op.work == op.work
  {
  }

  lemma WorkHandled(enabled: bool, op: Op, s: Step)
    requires op.cfg.incoming && WorkMove(enabled, op, s).Some?
    ensures var op' := WorkMove(enabled, op, s).value.op;
      && (s.HandlerReturns? ==> op.work.Queued?) && !op'.work.Idle? && !op'.work.Queued?
      && (s.HandlerReturns? && s.hasResponse ==> op'.log.handled == Some(s.status))
      && (!s.HandlerReturns? ==> op'.log.handled == op.log.handled)
  {
  }

  lemma NextSaid(es: seq<Event>, e: Event, o: nat, dying: bool, enabled: bool, op: Op, s: Step)
    requires op.cfg.incoming && HandlerSaid(es, o, op) && Takes(es, e, o, dying, enabled, op, s)
    ensures HandlerSaid(es + [e], o, Move(enabled, op, s).value.op)
  {
    HandledOnce(enabled, op, s);
    if Returned(es + [e], o) {
      ReturnedGrows(es, e, o);
    }
    var op' := Move(enabled, op, s).value.op;
    forall status: int | OpStep(o, HandlerReturns(status, true)) in es + [e] ensures op'.log.handled == Some(status) {
      if OpStep(o, HandlerReturns(status, true)) in es {
        assert Returned(es, o);
      }
    }
  }

  lemma StepFits(es: seq<Event>, e: Event, o: nat, dying: bool, enabled: bool, op: Op, s: Step)
    requires Takes(es, e, o, dying, enabled, op, s)
    ensures Fitting(FactsOf(es + [e], o), s)
    ensures s.SendResponse? ==> if s.ret == 0 then FactsOf(es + [e], o).sent else FactsOf(es + [e], o).refused
  {
    FactsGrow(es, e, o);
  }

  lemma NextAnswering(es: seq<Event>, e: Event, o: nat, dying: bool, enabled: bool, op: Op, s: Step)
    requires Takes(es, e, o, dying, enabled, op, s) && op.cfg.incoming
    requires Answering(FactsOf(es, o), op)
    ensures Answering(FactsOf(es + [e], o), Move(enabled, op, s).value.op)
  {
    var f := FactsOf(es + [e], o);
    FactsGrow(es, e, o);
    MonotoneAnswering(FactsOf(es, o), f, op);
    StepFits(es, e, o, dying, enabled, op, s);
    if s.SendResponse? {
      SendAnswers(f, enabled, op, s.ret);
    } else {
      QuietAnswers(f, enabled, op, s);
    }
  }

  /** An incoming operation keeps the id of its request. */
  lemma IdStays(enabled: bool, op: Op, s: Step)
    requires OpInv(op) && Move(enabled, op, s).Some?
    ensures Move(enabled, op, s).value.op.cfg == op.cfg
    ensures op.cfg.incoming ==> Move(enabled, op, s).value.op.tag == op.tag
  {
    InvHasNoReservedResult(op);
    MoveFrame(enabled, op, s);
    if op.cfg.incoming {
      IncomingAgents(enabled, op, s);
    }
  }

  lemma NextRequest(es: seq<Event>, e: Event, o: nat, op: Op, op': Op)
    requires IsRequest(es, o, op) && !Makes(e, o)
    requires op'.cfg == op.cfg && (op.cfg.incoming ==> op'.tag == op.tag)
    ensures IsRequest(es + [e], o, op')
  {
  }

  lemma NextAnswer(es: seq<Event>, e: Event, o: nat, dying: bool, enabled: bool, op: Op, s: Step)
    requires AnswerStory(es, o, op) && Takes(es, e, o, dying, enabled, op, s)
    ensures AnswerStory(es + [e], o, Move(enabled, op, s).value.op)
  {
    IdStays(enabled, op, s);
    NextRequest(es, e, o, op, Move(enabled, op, s).value.op);
    if op.cfg.incoming {
      NextSaid(es, e, o, dying, enabled, op, s);
      NextAnswering(es, e, o, dying, enabled, op, s);
    }
  }

  lemma AnswerTold()
    ensures Tells(AnswerStory)
  {
    forall es: seq<Event>, e: Event, o: nat, op: Op | Unmentioned(es, o) && CreatedBy(e, o, op)
      ensures AnswerStory(es + [e], o, op)
    {
      CreateAnswer(es, e, o, op);
    }
    forall es: seq<Event>, e: Event, o: nat, op: Op | AnswerStory(es, o, op) && Apart(e, o)
      ensures AnswerStory(es + [e], o, op)
    {
      StayAnswer(es, e, o, op);
    }
    forall es: seq<Event>, e: Event, o: nat, dying: bool, enabled: bool, op: Op, s: Step
      | AnswerStory(es, o, op) && Takes(es, e, o, dying, enabled, op, s)
      ensures AnswerStory(es + [e], o, Move(enabled, op, s).value.op)
    {
      NextAnswer(es, e, o, dying, enabled, op, s);
    }
  }

  /**
   Over every run: once a request that asks for an answer has been received, its handler has returned a status with a
   response at hand, and the work is past sending, then either the host device has taken a response that carries the
   request's id and the wire byte of that status, or the response was refused by the host device or for want of a
   connection, or teardown had recorded its own result first.  That happens only to a request that teardown reached
   before the receive interrupt had queued it; a handler that is at work is waited for.
   */
  lemma RequestAnswered(es: seq<Event>, c: Conn, o: nat, data: seq<byte>, status: int)
    requires Exec(NEW_CONN, es) == Some(c) && o in c.ops
    requires Receive(data, o) in es && |data| >= HEADER && !IsResponse(data) && MessageId(data) != 0
    requires OpStep(o, HandlerReturns(status, true)) in es && PastSending(c.ops[o].work)
    ensures var op := c.ops[o];
      || (&& op.log.answer == Some(Answer(MessageId(data), ErrnoMap(status)))
          && !op.response.NoResponse? && OpStep(o, SendResponse(0)) in es)
      || (op.log.answer.None? && Refused(es, o))
      || (op.log.answer.None? && StartTeardown in es && op.errno == ESHUTDOWN && Overtaken(es, o))
  {
    AnswerTold();
    RunTells(AnswerStory, es, c, o);
  }

  /** A request with id zero asks for no answer and gets none. */
  lemma OneWayUnanswered(es: seq<Event>, c: Conn, o: nat, data: seq<byte>)
    requires Exec(NEW_CONN, es) == Some(c) && o in c.ops
    requires Receive(data, o) in es && |data| >= HEADER && !IsResponse(data) && MessageId(data) == 0
    ensures c.ops[o].log.answer.None? && c.ops[o].response.NoResponse?
  {
    AnswerTold();
    RunTells(AnswerStory, es, c, o);
  }
}
