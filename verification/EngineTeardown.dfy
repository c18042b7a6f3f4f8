/** The teardown loop can run to its end exactly when it is not stuck in a fault. */
module EngineTeardown {
  import opened Common
  import opened Errno
  import opened Engine
  import opened EngineInvariant
  import opened EngineRuns
  import opened EngineSafety
  import opened EngineLift
  import opened EngineFault
  import opened EngineProgress

  // ------------------------------------------------- the teardown canceller

  function PhaseRank(c: Option<Cancel>): nat {
    if c.None? then 0 else
    match c.value.phase
    case Start => 8
    case Flushed => 7
    case Killing => 6
    case CQueueing => 5
    case Counting => 4
    case Asleep => 3
    case Prepared => 2
    case Leaving => 1
    case Done => 0
    case Crashed => 0
  }

  /** The step brings the end of the teardown canceller nearer. */
  predicate Closer(op: Op, op': Op) {
    && PhaseRank(op'.teardown) <= PhaseRank(op.teardown)
    && (PhaseRank(op'.teardown) < PhaseRank(op.teardown) || DrainRank(op') < DrainRank(op))
  }

  /** The canceller can move on its own, and safely. */
  predicate SelfMoving(op: Op)
    requires op.teardown.Some?
  {
    match op.teardown.value.phase
    case Start => !op.cfg.incoming || op.cfg.unidirectional || op.work.Idle? || op.work.Finished?
    case Flushed => !op.creator.InActive?
    case Killing =>
      if op.cfg.incoming then op.hasResp && (op.response.NoResponse? || op.response.RespDone?)
      else op.request.NotSent? || op.request.Reported?
    case Prepared => op.active == 0
    case Asleep => false
    case Done => false
    case Crashed => false
    case _ => true
  }

  /** The next step towards the end of the teardown canceller. */
  function Push(op: Op): Step
    requires op.teardown.Some?
  {
    if SelfMoving(op) then CancelStep(Teardown) else Help(op)
  }

  lemma PushSelf(dying: bool, op: Op)
    requires OpInv(op) && OpFault(dying, op) && op.teardown.Some? && SelfMoving(op)
    ensures PhaseMove(op, Teardown).Some?
    ensures var op' := PhaseMove(op, Teardown).value.op;
      PhaseRank(op'.teardown) < PhaseRank(op.teardown) && !Doomed(op')
  {
    var phase := op.teardown.value.phase;
    if op.cfg.incoming && phase.Flushed? {
      DecisionIffEarly(dying, op);
    } else if phase.Start? || phase.Killing? {
      PushStart(op);
    } else {
      PushLater(op);
    }
  }

  lemma PushStart(op: Op)
    requires OpInv(op) && op.teardown.Some? && SelfMoving(op)
    requires op.teardown.value.phase.Start? || op.teardown.value.phase.Killing?
    ensures PhaseMove(op, Teardown).Some?
    ensures var op' := PhaseMove(op, Teardown).value.op;
      PhaseRank(op'.teardown) < PhaseRank(op.teardown) && !Doomed(op')
  {
  }

  lemma PushLater(op: Op)
    requires OpInv(op) && op.teardown.Some? && SelfMoving(op)
    requires !op.teardown.value.phase.Start? && !op.teardown.value.phase.Killing? && !op.teardown.value.phase.Flushed?
    ensures PhaseMove(op, Teardown).Some?
    ensures var op' := PhaseMove(op, Teardown).value.op;
      PhaseRank(op'.teardown) < PhaseRank(op.teardown) && !Doomed(op')
  {
  }

  /** A canceller that has to wait waits for somebody who owes the operation something. */
  lemma WaitingIsUnquiet(dying: bool, op: Op)
    requires OpInv(op) && OpFault(dying, op) && !Doomed(op)
    requires op.teardown.Some? && !op.teardown.value.phase.Done? && !SelfMoving(op)
    ensures !Quiet(op)
  {
    if op.active > 0 && Decided(op) {
      ActiveIsUnquiet(op);
    }
  }

  // ---------------------------------------------------- what others may change

  /** A canceller's slot is as it was, or its sleeper is awake. */
  predicate SlotKept(op: Op, op': Op, who: Who) {
    Slot(op', who) == Slot(op, who) || Slot(op', who) == WakeOne(Slot(op, who))
  }

  /** Steps that open, move or close a canceller. */
  predicate OfCanceller(s: Step, who: Who) {
    s == CancelStep(who) || (if who.Sync? then s.GiveUp? else s.CancelBegin? || s.CancelEnd?)
  }

  lemma CreatorSlots(enabled: bool, op: Op, s: Step, who: Who)
    requires CreatorMove(enabled, op, s).Some? && !(s.GiveUp? && who.Sync?)
    ensures var op' := CreatorMove(enabled, op, s).value.op;
      SlotKept(op, op', who) && op'.hasResp == op.hasResp
  {
  }

  lemma DeviceSlots(op: Op, s: Step, who: Who)
    requires DeviceMove(op, s).Some?
    ensures var op' := DeviceMove(op, s).value.op; SlotKept(op, op', who) && op'.hasResp == op.hasResp
  {
  }

  lemma ReceiverSlots(op: Op, s: Step, who: Who)
    requires ReceiverMove(op, s).Some?
    ensures var op' := ReceiverMove(op, s).value.op; SlotKept(op, op', who) && op'.hasResp == op.hasResp
  {
  }

  lemma WorkSlots(enabled: bool, op: Op, s: Step, who: Who)
    requires WorkMove(enabled, op, s).Some?
    ensures var op' := WorkMove(enabled, op, s).value.op; SlotKept(op, op', who) && (op.hasResp ==> op'.hasResp)
  {
  }

  lemma InterruptSlots(enabled: bool, op: Op, s: Step, who: Who)
    requires InterruptMove(enabled, op, s).Some?
    ensures var op' := InterruptMove(enabled, op, s).value.op; SlotKept(op, op', who) && op'.hasResp == op.hasResp
  {
  }

  lemma CancelSlots(op: Op, s: Step, who: Who)
    requires CancelMove(op, s).Some? && s != CancelStep(who)
    ensures var op' := CancelMove(op, s).value.op; SlotKept(op, op', who) && op'.hasResp == op.hasResp
  {
    CancelShape(op, s.who);
  }

  lemma HoldSlots(op: Op, s: Step, who: Who)
    requires HoldMove(op, s).Some? && !(who.Teardown? && (s.CancelBegin? || s.CancelEnd?))
    ensures var op' := HoldMove(op, s).value.op; SlotKept(op, op', who) && op'.hasResp == op.hasResp
  {
  }

  /** Others may only wake a canceller, and a response once made stays. */
  lemma SlotStays(enabled: bool, op: Op, s: Step, who: Who)
    requires Move(enabled, op, s).Some? && !OfCanceller(s, who)
    ensures var op' := Move(enabled, op, s).value.op; SlotKept(op, op', who) && (op.hasResp ==> op'.hasResp)
  {
    match AgentOf(s)
    case ByCreator => CreatorSlots(enabled, op, s, who);
    case ByDevice => DeviceSlots(op, s, who);
    case ByReceiver => ReceiverSlots(op, s, who);
    case ByWork => WorkSlots(enabled, op, s, who);
    case ByInterrupt => InterruptSlots(enabled, op, s, who);
    case ByCanceller => CancelSlots(op, s, who);
    case ByHold => HoldSlots(op, s, who);
  }

  // ----------------------------------------------------------------- pushing

  lemma HelpIsOthers(op: Op)
    requires OpInv(op) && op.teardown.Some? && !SelfMoving(op) && Helping(op, Help(op)) && !ConnectionStep(Help(op))
    ensures !OfCanceller(Help(op), Teardown)
  {
  }

  /** A request whose response is missing but can still be made comes nearer to having it. */
  lemma HelpMakesResponse(dying: bool, op: Op)
    requires OpInv(op) && OpFault(dying, op) && Missing(op) && MayAllocate(op) && Move(false, op, Help(op)).Some?
    ensures !Doomed(Move(false, op, Help(op)).value.op)
  {
    if op.creator.InActive? || op.creator.InArmed? {
      assert AgentOf(Help(op)).ByInterrupt?;
    } else {
      assert Help(op) == HandlerReturns(0, true);
    }
  }

  lemma PushOthers(dying: bool, op: Op)
    requires OpInv(op) && OpFault(dying, op) && !Doomed(op)
    requires op.teardown.Some? && !op.teardown.value.phase.Done? && !SelfMoving(op)
    ensures Move(false, op, Help(op)).Some? && !ConnectionStep(Help(op))
    ensures var op' := Move(false, op, Help(op)).value.op; Closer(op, op') && !Doomed(op')
  {
    WaitingIsUnquiet(dying, op);
    UnquietHasHelper(false, op);
    HelpingLowers(false, op, Help(op));
    HelpIsOthers(op);
    SlotStays(false, op, Help(op), Teardown);
    if Missing(op) {
      HelpMakesResponse(dying, op);
    } else {
      CfgStays(op, Help(op));
    }
  }

  lemma CfgStays(op: Op, s: Step)
    requires OpInv(op) && Move(false, op, s).Some?
    ensures Move(false, op, s).value.op.cfg == op.cfg
  {
    InvHasNoReservedResult(op);
    MoveFrame(false, op, s);
  }

  /** Unless it is stuck in a fault, some agent can bring the end of the teardown canceller nearer, and safely. */
  lemma PushMoves(dying: bool, op: Op)
    requires OpInv(op) && OpFault(dying, op) && !Doomed(op)
    requires op.teardown.Some? && !op.teardown.value.phase.Done?
    ensures Move(false, op, Push(op)).Some? && !ConnectionStep(Push(op))
    ensures var op' := Move(false, op, Push(op)).value.op; Closer(op, op') && !Doomed(op')
  {
    if SelfMoving(op) {
      PushSelf(dying, op);
    } else {
      PushOthers(dying, op);
    }
  }

  // -------------------------------------------------------------------- runs

  /** The invariants of a connection and of its operations. */
  ghost predicate Good(c: Conn) {
    ConnInv(c) && All(OpFault, c)
  }

  lemma ApplyGood(c: Conn, e: Event)
    requires Good(c) && Apply(c, e).Some?
    ensures Good(Apply(c, e).value)
  {
    ApplyKeeps(c, e);
    FaultInductive();
    ApplyAll(OpFault, c, e);
  }

  /** One push of the operation that the loop is busy with. */
  lemma PushConn(c: Conn)
    requires Good(c) && !Stuck(c) && c.loop.Busy? && !c.ops[c.loop.op].teardown.value.phase.Done?
    ensures var e := OpStep(c.loop.op, Push(c.ops[c.loop.op]));
      && Apply(c, e).Some? && Good(Apply(c, e).value)
      && Apply(c, e).value.loop == c.loop && !Stuck(Apply(c, e).value)
      && Closer(c.ops[c.loop.op], Apply(c, e).value.ops[c.loop.op])
  {
    var o := c.loop.op;
    var s := Push(c.ops[o]);
    PushMoves(c.state.Destroying?, c.ops[o]);
    CanStep(c, o, s);
    ApplyGood(c, OpStep(o, s));
  }

  /** From any state inside an iteration that is not stuck, a run to its end exists. */
  lemma FinishIteration(c: Conn) returns (es: seq<Event>)
    requires Good(c) && !Stuck(c) && c.loop.Busy?
    ensures Exec(c, es).Some?
    ensures var c' := Exec(c, es).value;
      Good(c') && c'.loop == c.loop && c'.ops[c.loop.op].teardown.value.phase.Done?
    decreases PhaseRank(c.ops[c.loop.op].teardown), DrainRank(c.ops[c.loop.op])
  {
    var op := c.ops[c.loop.op];
    if op.teardown.value.phase.Done? {
      es := [];
    } else {
      PushConn(c);
      var e := OpStep(c.loop.op, Push(op));
      var rest := FinishIteration(Apply(c, e).value);
      es := [e] + rest;
      ExecCons(c, e, rest);
    }
  }

  lemma DropConn(c: Conn)
    requires Good(c) && c.loop.Busy? && c.ops[c.loop.op].teardown.value.phase.Done?
    ensures Apply(c, Drop).Some? && Good(Apply(c, Drop).value)
    ensures Apply(c, Drop).value.loop.Picking? && Apply(c, Drop).value.state.Destroying?
  {
    CanDrop(c);
    DropResult(c);
    ApplyGood(c, Drop);
  }

  lemma CanDrop(c: Conn)
    requires c.loop.Busy? && c.loop.op in c.ops && HoldMove(c.ops[c.loop.op], CancelEnd).Some?
    ensures Apply(c, Drop).Some?
  {
  }

  lemma PickConn(c: Conn)
    requires ConnInv(c) && c.loop.Picking? && c.list != []
    ensures Apply(c, Pick).Some? && !Stuck(Apply(c, Pick).value)
  {
    var o := c.list[|c.list| - 1];
    CancelBeginFacts(c.ops[o]);
    CanPick(c, o);
    PickResult(c);
  }

  lemma CanPick(c: Conn, o: nat)
    requires c.loop.Picking? && c.list != [] && o == c.list[|c.list| - 1] && o in c.ops
    requires HoldMove(c.ops[o], CancelBegin(ESHUTDOWN)).Some?
    ensures Apply(c, Pick).Some?
  {
  }

  /** A whole iteration of the loop, up to and including the drop of its reference. */
  lemma Iterate(c: Conn) returns (es: seq<Event>)
    requires Good(c) && c.loop.Picking? && c.list != []
    ensures Exec(c, es).Some?
    ensures var c' := Exec(c, es).value; Good(c') && c'.loop.Picking? && |c'.list| < |c.list|
  {
    PickConn(c);
    PickedFromList(c);
    ApplyGood(c, Pick);
    var c1 := Apply(c, Pick).value;
    var mid := FinishIteration(c1);
    var c2 := Exec(c1, mid).value;
    DropConn(c2);
    IterationShrinks(c, c1, mid, c2);
    es := [Pick] + (mid + [Drop]);
    ExecCons(c, Pick, mid + [Drop]);
    ExecAppend(c1, mid, [Drop]);
    ExecCons(c2, Drop, []);
  }

  /** The run ends the loop with an empty list. */
  ghost predicate Ends(c: Conn, es: seq<Event>) {
    Exec(c, es).Some? && Exec(c, es).value.loop.Ended? && Exec(c, es).value.list == []
  }

  /** From the top of the loop, in any state of the connection, a run to its end exists. */
  lemma LoopCanFinish(c: Conn) returns (es: seq<Event>)
    requires Good(c) && c.loop.Picking?
    ensures Ends(c, es)
    decreases |c.list|
  {
    if c.list == [] {
      es := [EndLoop];
      ExecCons(c, EndLoop, []);
    } else {
      var first := Iterate(c);
      var rest := LoopCanFinish(Exec(c, first).value);
      es := first + rest;
      ExecAppend(c, first, rest);
    }
  }

  lemma BusyCanFinish(c: Conn) returns (es: seq<Event>)
    requires Good(c) && !Stuck(c) && c.loop.Busy?
    ensures Ends(c, es)
  {
    var mid := FinishIteration(c);
    var c2 := Exec(c, mid).value;
    DropConn(c2);
    var rest := LoopCanFinish(Apply(c2, Drop).value);
    es := mid + ([Drop] + rest);
    ExecAppend(c, mid, [Drop] + rest);
    ExecCons(c2, Drop, rest);
  }

  lemma EnabledCanFinish(c: Conn) returns (es: seq<Event>)
    requires Good(c) && c.state.Enabled?
    ensures Ends(c, es)
  {
    ApplyGood(c, StartTeardown);
    var rest := LoopCanFinish(Apply(c, StartTeardown).value);
    es := [StartTeardown] + rest;
    ExecCons(c, StartTeardown, rest);
  }

  /**
   Every reachable state of a connection that is being destroyed, or can be, has a continuation in which the cancel
   loop ends with an empty list, exactly unless the loop is stuck in a cancel of a missing response.
   */
  lemma CanEndUnlessStuck(c: Conn)
    requires Reachable(c) && (c.state.Destroying? || c.state.Enabled?)
    ensures (exists es :: Ends(c, es)) <==> !Stuck(c)
  {
    ReachableFault(c);
    if Stuck(c) {
      forall es | Ends(c, es) ensures false {
        StuckForever(c, es);
      }
    } else if c.state.Enabled? {
      var es := EnabledCanFinish(c);
    } else if c.loop.Ended? {
      assert Ends(c, []);
    } else if c.loop.Picking? {
      var es := LoopCanFinish(c);
    } else {
      var es := BusyCanFinish(c);
    }
  }
}
