/** Runs that show which demands on the host device the engine cannot do without. */
module EngineDemands {
  import opened Common
  import opened Errno
  import opened Engine
  import opened EngineInvariant
  import opened EngineRuns
  import opened EngineFault
  import opened EngineClear

  // --------------------------------------------------------- a late refusal

  /** What the sender does when the host device refuses the request: put_active and put. */
  function Unwound(op: Op): Op {
    Put(PutActive(op).op)
  }

  /** The work item has still to drop what the sender took for it: a decided operation is completed by its work. */
  predicate WorkDrops(op: Op) {
    Final(op.errno) && !op.work.Finished?
  }

  /** After the unwinding the counts are again those of the holders that are left. */
  predicate Restored(op: Op) {
    var left := Unwound(op).(inflight := WorkDrops(op));
    left.active == Actives(left) && left.kref == Refs(left)
  }

  /**
   Suppose the host device, which has the request, refuses it only now, after other agents have run.  In every
   reachable state the sender's unwinding restores the counts exactly when the result is still -EINPROGRESS; once any
   event has decided the operation, the completion and the unwinding drop the same references.
   */
  lemma RefusalRestoresIffOpen(c: Conn, o: nat)
    requires Reachable(c) && o in c.ops && c.ops[o].accepted && c.ops[o].request.InDevice?
    ensures Restored(c.ops[o]) <==> c.ops[o].errno == EINPROGRESS
    ensures c.ops[o].work.Finished? ==> Unwound(c.ops[o]).active == -1
  {
    ReachableInv(c);
    UnwindingCounts(c.ops[o]);
  }

  lemma UnwindingCounts(op: Op)
    requires OpInv(op) && op.accepted
    ensures Restored(op) <==> op.errno == EINPROGRESS
    ensures op.work.Finished? ==> Unwound(op).active == -1
  {
  }

  // ------------------------------------------------------------- runs

  /** A successful response without payload to the operation with id 2. */
  const REPLY: seq<byte> := [8, 0, 2, 0, 0x81, 0, 0, 0]

  /** One more event at the end of a run. */
  lemma Extend(es: seq<Event>, c: Conn, e: Event) returns (c': Conn)
    requires Exec(NEW_CONN, es) == Some(c) && Apply(c, e).Some?
    ensures Apply(c, e) == Some(c') && Exec(NEW_CONN, es + [e]) == Some(c')
  {
    c' := Apply(c, e).value;
    ExecAppend(NEW_CONN, es, [e]);
    ExecCons(c, e, []);
    assert [e] == [e] + [];
  }

  /** One more step on operation 0. */
  lemma Advance(es: seq<Event>, c: Conn, s: Step) returns (es': seq<Event>, c': Conn)
    requires Exec(NEW_CONN, es) == Some(c) && 0 in c.ops
    requires Move(c.state.Enabled?, c.ops[0], s).Some? && !ConnectionStep(s)
    ensures Exec(NEW_CONN, es') == Some(c') && c' == With(c, 0, Move(c.state.Enabled?, c.ops[0], s).value)
  {
    es' := es + [OpStep(0, s)];
    c' := Extend(es, c, OpStep(0, s));
  }

  const SENT := Outgoing(false, []).(tag := Tag(2, 1), errno := EINPROGRESS, kref := 2, active := 1,
       creator := AsyncSent, inflight := true, accepted := true, request := InDevice)

  lemma SendRun() returns (es: seq<Event>, c: Conn)
    ensures Exec(NEW_CONN, es) == Some(c)
    ensures c.state.Enabled? && c.list == [0] && c.ops == map[0 := SENT]
  {
    es := [];
    c := NEW_CONN;
    c := Extend(es, c, Enable); es := es + [Enable];
    c := Extend(es, c, Create(0, false, [])); es := es + [Create(0, false, [])];
    c := Extend(es, c, TakeId(0)); es := es + [TakeId(0)];
    es, c := Advance(es, c, Arm);
    es, c := Advance(es, c, HandOver(0));
  }

  lemma FoundRun() returns (es: seq<Event>, c: Conn)
    ensures Exec(NEW_CONN, es) == Some(c)
    ensures c.state.Enabled? && c.list == [0] && 0 in c.ops
    ensures c.ops[0] == SENT.(kref := 3, receivers := [Found(REPLY)])
  {
    es, c := SendRun();
    assert WellFormedMessage(REPLY) && IsResponse(REPLY) && MessageId(REPLY) == 2;
    assert FindOutgoing(c.ops, c.list, 2) == Some(0);
    c := Extend(es, c, Receive(REPLY, 0)); es := es + [Receive(REPLY, 0)];
  }

  lemma ReplyRun() returns (es: seq<Event>, c: Conn)
    ensures Exec(NEW_CONN, es) == Some(c)
    ensures c.state.Enabled? && c.list == [0] && 0 in c.ops
    ensures var op := c.ops[0]; op == SENT.(errno := 0, receivers := [Queueing], kref := 3, respBuf := REPLY,
       log := EMPTY_LOG.(wins := 1, winner := Some(REPLY)))
  {
    es, c := FoundRun();
    assert ResponseErrno(REPLY, 0) == 0;
    es, c := Advance(es, c, ReceiverDecide(0));
    assert c.ops[0].receivers == [Copying(REPLY)];
    es, c := Advance(es, c, ReceiverCopy(0));
    assert c.ops[0].receivers == [Queueing] && c.ops[0].respBuf == REPLY;
  }

  lemma QueuedRun() returns (es: seq<Event>, c: Conn)
    ensures Exec(NEW_CONN, es) == Some(c)
    ensures 0 in c.ops && c.ops[0].work.Queued? && !c.ops[0].cfg.incoming && !c.ops[0].cfg.sync
    ensures c.ops[0].kref == 2 && c.ops[0].creator.AsyncSent? && c.ops[0].request.InDevice?
    ensures c.ops[0].active == 1 && c.ops[0].waiters == 0
  {
    es, c := ReplyRun();
    es, c := Advance(es, c, ReceiverQueue(0));
    es, c := Advance(es, c, ReceiverPut(0));
  }

  lemma CalledRun() returns (es: seq<Event>, c: Conn)
    ensures Exec(NEW_CONN, es) == Some(c)
    ensures 0 in c.ops && c.ops[0].work.Called? && c.ops[0].kref == 1 && c.ops[0].request.InDevice?
    ensures c.ops[0].active == 1 && c.ops[0].waiters == 0
  {
    es, c := QueuedRun();
    es, c := Advance(es, c, RunCallback);
  }

  /**
   A host device may report on a request after its operation has been completed by the response and
   freed, so "reports come before the last reference is dropped" is a demand on the host device
   and not a consequence of the engine.
   */
  lemma LateReport()
    ensures exists c :: Reachable(c) && 0 in c.ops && c.ops[0].kref == 0 && c.ops[0].request.InDevice?
  {
    var es, c := CalledRun();
    es, c := Advance(es, c, WorkPutActive);
    assert c.ops[0].kref == 1 && c.ops[0].work.Dropped? && c.ops[0].request.InDevice?;
    es, c := Advance(es, c, WorkPut);
    assert Reachable(c);
  }

  // --------------------------------------------------- a missing response

  /** A request without payload, with id 5. */
  const REQUEST: seq<byte> := [8, 0, 5, 0, 0x01, 0, 0, 0]

  lemma RequestRun() returns (es: seq<Event>, c: Conn)
    ensures Exec(NEW_CONN, es) == Some(c)
    ensures c.state.Enabled? && c.loop.NotStarted? && c.list == [0] && 0 in c.ops
    ensures c.ops[0] == Incoming(REQUEST).(active := 1, creator := InActive)
  {
    es, c := ReceivedRun();
    es, c := Advance(es, c, RequestActivate);
  }

  lemma ReceivedRun() returns (es: seq<Event>, c: Conn)
    ensures Exec(NEW_CONN, es) == Some(c)
    ensures c.state.Enabled? && c.loop.NotStarted? && c.list == [] && 0 in c.ops && c.ops[0] == Incoming(REQUEST)
  {
    assert WellFormedMessage(REQUEST) && !IsResponse(REQUEST);
    c := Extend([], NEW_CONN, Enable);
    c := Extend([Enable], c, Receive(REQUEST, 0));
    es := [Enable] + [Receive(REQUEST, 0)];
  }

  lemma TeardownRun() returns (es: seq<Event>, c: Conn)
    ensures Exec(NEW_CONN, es) == Some(c)
    ensures c.state.Destroying? && 0 in c.ops
    ensures (c.ops[0] == Incoming(REQUEST).(active := 1, creator := InActive, kref := 2,
                                            teardown := Some(Cancel(ESHUTDOWN, Start))))
  {
    es, c := DyingRun();
    c := Extend(es, c, Pick); es := es + [Pick];
  }

  lemma DyingRun() returns (es: seq<Event>, c: Conn)
    ensures Exec(NEW_CONN, es) == Some(c)
    ensures c.state.Destroying? && c.loop.Picking? && c.list == [0] && 0 in c.ops
    ensures c.ops[0] == Incoming(REQUEST).(active := 1, creator := InActive)
  {
    es, c := RequestRun();
    c := Extend(es, c, StartTeardown); es := es + [StartTeardown];
  }

  /** Teardown that comes between get_active and result_set of a new request ends up cancelling a response that does
      not exist. */
  lemma EarlyTeardownFaults()
    ensures exists c :: Reachable(c) && 0 in c.ops && Crash(c.ops[0])
  {
    var es, c := DecidedRun();
    es, c := Advance(es, c, CancelStep(Teardown));
    assert Reachable(c);
  }

  lemma DecidedRun() returns (es: seq<Event>, c: Conn)
    ensures Exec(NEW_CONN, es) == Some(c)
    ensures 0 in c.ops && Missing(c.ops[0])
  {
    es, c := TeardownRun();
    es, c := Advance(es, c, CancelStep(Teardown));
    assert c.ops[0].teardown == Some(Cancel(ESHUTDOWN, Flushed)) && c.ops[0].errno == EBADR;
    es, c := Advance(es, c, CancelStep(Teardown));
  }

  // ---------------------------------------------------- a late clearing

  lemma HandledRun() returns (es: seq<Event>, c: Conn)
    ensures Exec(NEW_CONN, es) == Some(c)
    ensures c.state.Enabled? && 0 in c.ops && c.ops[0].cfg.incoming && !c.ops[0].cfg.unidirectional
    ensures c.ops[0].work == Responding(0) && c.ops[0].hasResp && c.ops[0].errno == EINPROGRESS
    ensures c.ops[0].kref == 1 && c.ops[0].active == 1 && c.ops[0].waiters == 0 && c.ops[0].teardown.None?
    ensures c.ops[0].response.NoResponse?
  {
    es, c := ArmedRun();
    es, c := Advance(es, c, RequestQueue);
    assert c.ops[0].work.Queued? && c.ops[0].errno == EINPROGRESS;
    es, c := Advance(es, c, HandlerReturns(0, true));
  }

  lemma ArmedRun() returns (es: seq<Event>, c: Conn)
    ensures Exec(NEW_CONN, es) == Some(c)
    ensures c.state.Enabled? && 0 in c.ops
    ensures c.ops[0] == Incoming(REQUEST).(active := 1, creator := InArmed, errno := EINPROGRESS)
  {
    es, c := RequestRun();
    es, c := Advance(es, c, RequestArm);
  }

  lemma RespondedRun() returns (es: seq<Event>, c: Conn)
    ensures Exec(NEW_CONN, es) == Some(c)
    ensures 0 in c.ops && c.ops[0].work.Called? && c.ops[0].response.RespInDevice?
    ensures c.ops[0].kref == 2 && c.ops[0].active == 2 && c.ops[0].waiters == 0
  {
    es, c := HandledRun();
    es, c := Advance(es, c, RecordStatus);
    assert c.ops[0].work.Sending? && c.ops[0].kref == 1 && c.ops[0].active == 1;
    es, c := Advance(es, c, SendResponse(0));
  }

  lemma WorkedRun() returns (es: seq<Event>, c: Conn)
    ensures Exec(NEW_CONN, es) == Some(c)
    ensures 0 in c.ops && c.ops[0].response.RespInDevice?
    ensures c.ops[0].kref == 1 && c.ops[0].active == 1 && c.ops[0].waiters == 0
  {
    es, c := RespondedRun();
    es, c := Advance(es, c, WorkPutActive);
    assert c.ops[0].work.Dropped? && c.ops[0].kref == 2;
    es, c := Advance(es, c, WorkPut);
  }

  /** In the ordinary order, with the handler's work done first, the report on a response drops the last reference, and
      the callback then clears a message that has been freed. */
  lemma LateClearing()
    ensures exists c :: Reachable(c) && ClearsFreed(c, 0)
  {
    var es, c := WorkedRun();
    es, c := Advance(es, c, ResponseReport);
    assert c.ops[0].response.RespDropping? && c.ops[0].kref == 1;
    es, c := Advance(es, c, ResponsePut);
    assert Reachable(c);
  }
}
