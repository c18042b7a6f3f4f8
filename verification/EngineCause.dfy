/** Which error a caller gets: the result of an operation is what one event of the run says. */
module EngineCause {
  import opened Common
  import opened Errno
  import opened Engine
  import opened EngineInvariant
  import opened EngineRuns
  import opened EngineSafety
  import opened EngineLift
  import opened EngineTeardown
  import opened EngineStory

  // ------------------------------------------------------------------ a story

  /** The synchronous caller gave up, for the reason that errno names. */
  predicate GaveUp(es: seq<Event>, o: nat, errno: int) {
    || (errno == ETIMEDOUT && OpStep(o, GiveUp(false)) in es)
    || (errno == ECANCELED && OpStep(o, GiveUp(true)) in es)
  }

  /** The message came in, as a response. */
  ghost predicate Heard(es: seq<Event>, data: seq<byte>) {
    |data| >= HEADER && IsResponse(data) && exists p: nat :: Receive(data, p) in es
  }

  /** What cancellers, receivers and a refused sender hold was named by events. */
  ghost predicate Story(es: seq<Event>, o: nat, op: Op) {
    && (op.syncCancel.Some? ==> GaveUp(es, o, op.syncCancel.value.errno))
    && (op.teardown.Some? ==> StartTeardown in es && op.teardown.value.errno == ESHUTDOWN)
    && (forall i :: 0 <= i < |op.receivers| && op.receivers[i].Found? ==> Heard(es, op.receivers[i].data))
    && (op.log.outcome.Some? && !op.accepted ==>
          op.log.outcome.value != 0 && OpStep(o, HandOver(op.log.outcome.value)) in es)
  }

  /** More events do not unsay anything. */
  lemma StoryStays(es: seq<Event>, e: Event, o: nat, op: Op)
    requires Story(es, o, op)
    ensures Story(es + [e], o, op)
  {
    forall i | 0 <= i < |op.receivers| && op.receivers[i].Found? ensures Heard(es + [e], op.receivers[i].data) {
      var p: nat :| Receive(op.receivers[i].data, p) in es;
      assert Receive(op.receivers[i].data, p) in es + [e];
    }
  }

  // ------------------------------------------------------- where things come from

  lemma GiveUpSlot(enabled: bool, op: Op, s: Step)
    requires CreatorMove(enabled, op, s).Some? && s.GiveUp?
    ensures CreatorMove(enabled, op, s).value.op.syncCancel.Some?
    ensures (CreatorMove(enabled, op, s).value.op.syncCancel.value.errno
             == if s.interrupted then ECANCELED else ETIMEDOUT)
  {
  }

  lemma BeginSlot(op: Op, s: Step)
    requires HoldMove(op, s).Some? && (s.CancelBegin? || s.CancelEnd?)
    ensures var op' := HoldMove(op, s).value.op;
      op'.teardown.Some? ==> s.CancelBegin? && op'.teardown.value.errno == s.errno
  {
  }

  /** A canceller's error code is given when it starts, and stays. */
  lemma SlotErrno(enabled: bool, op: Op, s: Step, who: Who)
    requires Move(enabled, op, s).Some? && Slot(Move(enabled, op, s).value.op, who).Some?
    ensures var errno := Slot(Move(enabled, op, s).value.op, who).value.errno;
      || (Slot(op, who).Some? && Slot(op, who).value.errno == errno)
      || (who.Sync? && s.GiveUp? && errno == if s.interrupted then ECANCELED else ETIMEDOUT)
      || (who.Teardown? && s.CancelBegin? && errno == s.errno)
  {
    if !OfCanceller(s, who) {
      SlotStays(enabled, op, s, who);
    } else if s.CancelStep? {
      OwnSlot(enabled, op, who);
    } else if who.Sync? {
      GiveUpSlot(enabled, op, s);
    } else {
      BeginSlot(op, s);
    }
  }

  lemma OwnSlot(enabled: bool, op: Op, who: Who)
    requires Move(enabled, op, CancelStep(who)).Some?
    ensures Slot(op, who).Some?
    ensures var op' := Move(enabled, op, CancelStep(who)).value.op;
      Slot(op', who).Some? ==> Slot(op', who).value.errno == Slot(op, who).value.errno
  {
    assert CancelMove(op, CancelStep(who)).Some?;
    CancelShape(op, who);
  }

  /** A receiver's message is the one it was looked up for. */
  lemma FoundFrom(op: Op, s: Step, i: nat)
    requires ReceiverMove(op, s).Some?
    requires i < |ReceiverMove(op, s).value.op.receivers| && ReceiverMove(op, s).value.op.receivers[i].Found?
    ensures var r := ReceiverMove(op, s).value.op.receivers[i]; r in op.receivers || s == Lookup(r.data)
  {
  }

  lemma ReceiversFrom(enabled: bool, op: Op, s: Step, i: nat)
    requires OpInv(op) && Move(enabled, op, s).Some?
    requires i < |Move(enabled, op, s).value.op.receivers| && Move(enabled, op, s).value.op.receivers[i].Found?
    ensures var r := Move(enabled, op, s).value.op.receivers[i]; r in op.receivers || s == Lookup(r.data)
  {
    if AgentOf(s).ByReceiver? {
      FoundFrom(op, s, i);
    } else {
      InvHasNoReservedResult(op);
      MoveFrame(enabled, op, s);
    }
  }

  predicate SameOutcome(op: Op, op': Op) {
    op'.log.outcome == op.log.outcome && op'.accepted == op.accepted
  }

  lemma SenderOutcome(enabled: bool, op: Op, s: Step)
    requires SenderMove(enabled, op, s).Some?
    ensures var op' := SenderMove(enabled, op, s).value.op;
      || SameOutcome(op, op') || op'.accepted
      || (s.HandOver? && s.ret != 0 && op'.log.outcome == Some(s.ret))
  {
  }

  lemma WaiterOutcome(op: Op, s: Step)
    requires WaiterMove(op, s).Some?
    ensures var op' := WaiterMove(op, s).value.op;
      SameOutcome(op, op') || (op.creator.Collecting? && op'.accepted == op.accepted)
  {
  }

  lemma ReceiverOutcome(op: Op, s: Step)
    requires ReceiverMove(op, s).Some?
    ensures SameOutcome(op, ReceiverMove(op, s).value.op)
  {
  }

  lemma DeviceOutcome(op: Op, s: Step)
    requires DeviceMove(op, s).Some?
    ensures SameOutcome(op, DeviceMove(op, s).value.op)
  {
  }

  lemma WorkOutcome(enabled: bool, op: Op, s: Step)
    requires WorkMove(enabled, op, s).Some?
    ensures SameOutcome(op, WorkMove(enabled, op, s).value.op)
  {
  }

  lemma InterruptOutcome(enabled: bool, op: Op, s: Step)
    requires InterruptMove(enabled, op, s).Some?
    ensures SameOutcome(op, InterruptMove(enabled, op, s).value.op)
  {
  }

  lemma CancelOutcome(op: Op, s: Step)
    requires CancelMove(op, s).Some?
    ensures SameOutcome(op, CancelMove(op, s).value.op)
  {
    CancelShape(op, s.who);
  }

  lemma HoldOutcome(op: Op, s: Step)
    requires HoldMove(op, s).Some?
    ensures SameOutcome(op, HoldMove(op, s).value.op)
  {
  }

  lemma CollectorIsAccepted(op: Op)
    requires OpInv(op) && op.creator.Collecting?
    ensures op.accepted
  {
  }

  /** Only a refused hand-over gives an unsent operation its outcome. */
  lemma OutcomeFrom(enabled: bool, op: Op, s: Step)
    requires OpInv(op) && Move(enabled, op, s).Some?
    ensures var op' := Move(enabled, op, s).value.op;
      || SameOutcome(op, op') || op'.accepted
      || (s.HandOver? && s.ret != 0 && op'.log.outcome == Some(s.ret))
  {
    match AgentOf(s)
    case ByCreator =>
      if Sends(s) {
        SenderOutcome(enabled, op, s);
      } else {
        WaiterOutcome(op, s);
        if op.creator.Collecting? {
          CollectorIsAccepted(op);
        }
      }
    case ByDevice => DeviceOutcome(op, s);
    case ByReceiver => ReceiverOutcome(op, s);
    case ByWork => WorkOutcome(enabled, op, s);
    case ByInterrupt => InterruptOutcome(enabled, op, s);
    case ByCanceller => CancelOutcome(op, s);
    case ByHold => HoldOutcome(op, s);
  }

  // -------------------------------------------------------------- it is told

  lemma SlotsTold(es: seq<Event>, e: Event, o: nat, dying: bool, enabled: bool, op: Op, s: Step)
    requires Story(es, o, op) && Takes(es, e, o, dying, enabled, op, s)
    ensures var op' := Move(enabled, op, s).value.op;
      && (op'.syncCancel.Some? ==> GaveUp(es + [e], o, op'.syncCancel.value.errno))
      && (op'.teardown.Some? ==> StartTeardown in es + [e] && op'.teardown.value.errno == ESHUTDOWN)
  {
    var op' := Move(enabled, op, s).value.op;
    assert e in es + [e];
    if op'.syncCancel.Some? {
      SlotErrno(enabled, op, s, Sync);
    }
    if op'.teardown.Some? {
      SlotErrno(enabled, op, s, Teardown);
      BeginByPick(e, o, s);
    }
  }

  lemma BeginByPick(e: Event, o: nat, s: Step)
    requires By(e, o, s)
    ensures s.CancelBegin? && !e.OpStep? ==> s.errno == ESHUTDOWN
  {
  }

  lemma StoryTold()
    ensures Tells(Story)
  {
    forall es: seq<Event>, e: Event, o: nat, op: Op | Story(es, o, op) && Apart(e, o) ensures Story(es + [e], o, op) {
      StoryStays(es, e, o, op);
    }
    forall es: seq<Event>, e: Event, o: nat, dying: bool, enabled: bool, op: Op, s: Step
      | Story(es, o, op) && Takes(es, e, o, dying, enabled, op, s)
      ensures Story(es + [e], o, Move(enabled, op, s).value.op)
    {
      NextStory(es, e, o, dying, enabled, op, s);
    }
  }

  lemma NextStory(es: seq<Event>, e: Event, o: nat, dying: bool, enabled: bool, op: Op, s: Step)
    requires Story(es, o, op) && Takes(es, e, o, dying, enabled, op, s)
    ensures Story(es + [e], o, Move(enabled, op, s).value.op)
  {
    StoryStays(es, e, o, op);
    SlotsTold(es, e, o, dying, enabled, op, s);
    HeardTold(es, e, o, dying, enabled, op, s);
    OutcomeTold(es, e, o, dying, enabled, op, s);
  }

  lemma HeardTold(es: seq<Event>, e: Event, o: nat, dying: bool, enabled: bool, op: Op, s: Step)
    requires Story(es + [e], o, op) && Takes(es, e, o, dying, enabled, op, s)
    ensures var op' := Move(enabled, op, s).value.op;
      forall i :: 0 <= i < |op'.receivers| && op'.receivers[i].Found? ==> Heard(es + [e], op'.receivers[i].data)
  {
    var op' := Move(enabled, op, s).value.op;
    forall i | 0 <= i < |op'.receivers| && op'.receivers[i].Found? ensures Heard(es + [e], op'.receivers[i].data) {
      ReceiversFrom(enabled, op, s, i);
      if s == Lookup(op'.receivers[i].data) {
        LookupByReceive(es, e, o, s);
      }
    }
  }

  lemma LookupByReceive(es: seq<Event>, e: Event, o: nat, s: Step)
    requires By(e, o, s) && s.Lookup? && !e.OpStep?
    ensures Heard(es + [e], s.data)
  {
    assert e in es + [e];
    assert e == Receive(s.data, e.o);
  }

  lemma OutcomeTold(es: seq<Event>, e: Event, o: nat, dying: bool, enabled: bool, op: Op, s: Step)
    requires Story(es + [e], o, op) && Takes(es, e, o, dying, enabled, op, s)
    ensures var op' := Move(enabled, op, s).value.op;
      (op'.log.outcome.Some? && !op'.accepted ==>
       op'.log.outcome.value != 0 && OpStep(o, HandOver(op'.log.outcome.value)) in es + [e])
  {
    OutcomeFrom(enabled, op, s);
    assert e in es + [e];
  }

  // ------------------------------------------------------------- the cause

  /** Why an operation ended: what a caller may be told, and by what. */
  datatype Cause =
    | Timeout
    | Signal
    | Shutdown
    | SendError(status: int)
    | Response(data: seq<byte>)

  /** The reserved initial value is never stored as a result. */
  function Stored(errno: int): int {
    if errno == EBADR then EILSEQ else errno
  }

  /** The event that decides for this cause. */
  predicate Decider(e: Event, o: nat, cause: Cause) {
    match cause
    case Timeout => e == OpStep(o, CancelStep(Sync))
    case Signal => e == OpStep(o, CancelStep(Sync))
    case Shutdown => e == OpStep(o, CancelStep(Teardown))
    case SendError(status) => e == OpStep(o, SendReport(status))
    case Response(_) => e.OpStep? && e.o == o && e.s.ReceiverDecide?
  }

  /** The events name the cause, and the result is what the cause says. */
  ghost predicate Explains(es: seq<Event>, o: nat, op: Op, cause: Cause) {
    match cause
    case Timeout => OpStep(o, GiveUp(false)) in es && op.errno == ETIMEDOUT
    case Signal => OpStep(o, GiveUp(true)) in es && op.errno == ECANCELED
    case Shutdown => StartTeardown in es && op.errno == ESHUTDOWN
    case SendError(status) => status != 0 && op.errno == Stored(status)
    case Response(data) =>
      && Heard(es, data) && WellFormedMessage(data) && MessageId(data) == op.tag.id
      && (data[5] != 0 ==> op.errno == StatusMap(data[5]))
      && (data[5] == 0 && MessageSize(data) == HEADER + op.cfg.respSize ==> op.errno == 0)
      && (data[5] == 0 && MessageSize(data) != HEADER + op.cfg.respSize ==> op.errno == EMSGSIZE)
  }

  lemma CancelDecides(op: Op, who: Who)
    requires OpInv(op) && !op.cfg.incoming && Slot(op, who).Some? && PhaseMove(op, who).Some?
    requires !Final(op.errno) && Final(PhaseMove(op, who).value.op.errno)
    ensures PhaseMove(op, who).value.op.errno == Stored(Slot(op, who).value.errno)
  {
  }

  lemma SentDecides(op: Op, status: int)
    requires SentMove(op, status).Some? && !Final(op.errno) && Final(SentMove(op, status).value.op.errno)
    ensures status != 0 && SentMove(op, status).value.op.errno == Stored(status)
  {
  }

  lemma DeviceDecides(op: Op, s: Step)
    requires DeviceMove(op, s).Some? && !Final(op.errno) && Final(DeviceMove(op, s).value.op.errno)
    ensures s.SendReport? && s.status != 0 && DeviceMove(op, s).value.op.errno == Stored(s.status)
  {
    if s.SendReport? {
      SentDecides(op, s.status);
    }
  }

  lemma ReceiverDecides(op: Op, s: Step)
    requires ReceiverMove(op, s).Some? && !Final(op.errno) && Final(ReceiverMove(op, s).value.op.errno)
    ensures s.ReceiverDecide? && s.i < |op.receivers| && op.receivers[s.i].Found?
    ensures WellFormedMessage(op.receivers[s.i].data)
    ensures ReceiverMove(op, s).value.op.errno == ResponseErrno(op.receivers[s.i].data, op.cfg.respSize)
  {
  }

  lemma OthersDoNot(enabled: bool, op: Op, s: Step)
    requires OpInv(op) && !op.cfg.incoming && !Final(op.errno)
    ensures CreatorMove(enabled, op, s).Some? ==> !Final(CreatorMove(enabled, op, s).value.op.errno)
    ensures HoldMove(op, s).Some? ==> !Final(HoldMove(op, s).value.op.errno)
    ensures InterruptMove(enabled, op, s).None?
  {
    CreatorDoesNot(enabled, op, s);
    HoldDoesNot(op, s);
  }

  lemma CreatorDoesNot(enabled: bool, op: Op, s: Step)
    requires OpInv(op) && !op.cfg.incoming && !Final(op.errno)
    ensures CreatorMove(enabled, op, s).Some? ==> !Final(CreatorMove(enabled, op, s).value.op.errno)
  {
  }

  lemma HoldDoesNot(op: Op, s: Step)
    requires !Final(op.errno)
    ensures HoldMove(op, s).Some? ==> !Final(HoldMove(op, s).value.op.errno)
  {
  }

  lemma WorkDoesNot(enabled: bool, op: Op, s: Step)
    requires OpInv(op) && !op.cfg.incoming && !Final(op.errno)
    ensures WorkMove(enabled, op, s).None?
  {
  }

  /** The message of a receiver carries the operation's id. */
  lemma FoundIsAddressed(op: Op, i: nat)
    requires OpInv(op) && !op.cfg.incoming && i < |op.receivers| && op.receivers[i].Found?
    ensures Addressed(op, op.receivers[i].data)
  {
  }

  /** A step that gives an outgoing operation its result has a cause that the events before it name. */
  lemma StepHasCause(es: seq<Event>, e: Event, o: nat, dying: bool, enabled: bool, op: Op, s: Step)
    returns (cause: Cause)
    requires Story(es, o, op) && Takes(es, e, o, dying, enabled, op, s) && !op.cfg.incoming
    requires !Final(op.errno) && Final(Move(enabled, op, s).value.op.errno)
    ensures Decider(e, o, cause) && Explains(es + [e], o, Move(enabled, op, s).value.op, cause)
  {
    StoryStays(es, e, o, op);
    InvHasNoReservedResult(op);
    MoveFrame(enabled, op, s);
    match AgentOf(s)
    case ByDevice =>
      DeviceDecides(op, s);
      cause := SendError(s.status);
    case ByReceiver =>
      ReceiverDecides(op, s);
      FoundIsAddressed(op, s.i);
      cause := Response(op.receivers[s.i].data);
      StatusIsFinal(op.receivers[s.i].data[5]);
    case ByCanceller =>
      CancelDecides(op, s.who);
      cause := if s.who.Teardown? then Shutdown else if op.syncCancel.value.errno == ETIMEDOUT then Timeout else Signal;
    case ByWork =>
      WorkDoesNot(enabled, op, s);
      cause := Shutdown;
    case _ =>
      OthersDoNot(enabled, op, s);
      cause := Shutdown;
  }

  lemma StatusIsFinal(status: byte)
    ensures StatusMap(status) == 0 <==> status == 0
  {
  }

  // ------------------------------------------------------------------ over runs

  /** Event k of the run gives o its final result. */
  ghost predicate DecidesAt(es: seq<Event>, k: nat, o: nat)
    requires k < |es|
  {
    && Exec(NEW_CONN, es[..k]).Some? && !FinalAt(Exec(NEW_CONN, es[..k]).value, o)
    && Exec(NEW_CONN, es[..k + 1]).Some? && FinalAt(Exec(NEW_CONN, es[..k + 1]).value, o)
  }

  /** The result of op is due to event k, which decided, and to the cause that it carries out. */
  ghost predicate DueTo(es: seq<Event>, o: nat, op: Op, k: nat, cause: Cause)
    requires k < |es|
  {
    DecidesAt(es, k, o) && Decider(es[k], o, cause) && Explains(es[..k + 1], o, op, cause)
  }

  lemma NewCause(pre: seq<Event>, c0: Conn, e: Event, c: Conn, o: nat) returns (cause: Cause)
    requires Exec(NEW_CONN, pre) == Some(c0) && Apply(c0, e) == Some(c) && o in c0.ops && o in c.ops
    requires !c.ops[o].cfg.incoming && !Final(c0.ops[o].errno) && Final(c.ops[o].errno)
    ensures Decider(e, o, cause) && Explains(pre + [e], o, c.ops[o], cause)
  {
    StoryTold();
    RunTells(Story, pre, c0, o);
    RunAccounted(pre, c0);
    ApplyLater(c0, e, o);
    NoRemake(c0, e, o);
    ApplyStepsBy(c0, e, o);
    var op := c0.ops[o];
    var s :| StepOk(c0.state.Destroying?, c0.state.Enabled?, op, s) && By(e, o, s)
      && c.ops[o] == Move(c0.state.Enabled?, op, s).value.op;
    cause := StepHasCause(pre, e, o, c0.state.Destroying?, c0.state.Enabled?, op, s);
  }

  /** A later event leaves the result, the id and the expected size alone. */
  lemma SameResult(c0: Conn, e: Event, c: Conn, o: nat)
    requires ConnInv(c0) && Apply(c0, e) == Some(c) && o in c0.ops && Final(c0.ops[o].errno)
    ensures o in c.ops && c.ops[o].errno == c0.ops[o].errno
    ensures c.ops[o].cfg == c0.ops[o].cfg && c.ops[o].tag == c0.ops[o].tag
  {
    ApplyLater(c0, e, o);
    ApplySteps(c0, e, o);
    var op := c0.ops[o];
    if c.ops[o] != op {
      var s :| StepOk(c0.state.Destroying?, c0.state.Enabled?, op, s)
        && c.ops[o] == Move(c0.state.Enabled?, op, s).value.op;
      InvHasNoReservedResult(op);
      MoveFrame(c0.state.Enabled?, op, s);
      DecidedHasId(op);
      assert s.AssignId? ==> SenderMove(c0.state.Enabled?, op, s).Some?;
    }
  }

  lemma DecidedHasId(op: Op)
    requires OpInv(op) && Final(op.errno)
    ensures !op.creator.Holding?
  {
  }

  /**
   Over every run, the final result of an outgoing operation is what exactly one event of the run says: the timeout or
   the signal for which its caller gave up, the shutdown of the connection, the error that the host device reported, or
   the status byte and the size of a response with its id.
   */
  lemma {:induction false} ResultHasCause(es: seq<Event>, c: Conn, o: nat)
    requires Exec(NEW_CONN, es) == Some(c) && o in c.ops && !c.ops[o].cfg.incoming && Final(c.ops[o].errno)
    ensures exists k: nat, cause :: k < |es| && DueTo(es, o, c.ops[o], k, cause)
    decreases |es|
  {
    var pre, e := es[..|es| - 1], es[|es| - 1];
    assert es == pre + [e];
    ExecSnoc(NEW_CONN, pre, e);
    var c0 := Exec(NEW_CONN, pre).value;
    RunAccounted(pre, c0);
    if FinalAt(c0, o) {
      SameResult(c0, e, c, o);
      ResultHasCause(pre, c0, o);
      var k: nat, cause :| k < |pre| && DueTo(pre, o, c0.ops[o], k, cause);
      StillDue(pre, e, o, c0.ops[o], c.ops[o], k, cause);
    } else {
      NewIsOpen(c0, e, c, o);
      var cause := NewCause(pre, c0, e, c, o);
      NowDue(pre, c0, e, c, o, cause);
    }
  }

  lemma StillDue(pre: seq<Event>, e: Event, o: nat, op: Op, op': Op, k: nat, cause: Cause)
    requires k < |pre| && DueTo(pre, o, op, k, cause)
    requires op'.errno == op.errno && op'.cfg == op.cfg && op'.tag == op.tag
    ensures DueTo(pre + [e], o, op', k, cause)
  {
    var es := pre + [e];
    assert es[..k] == pre[..k] && es[..k + 1] == pre[..k + 1];
  }

  lemma NowDue(pre: seq<Event>, c0: Conn, e: Event, c: Conn, o: nat, cause: Cause)
    requires Exec(NEW_CONN, pre) == Some(c0) && Exec(NEW_CONN, pre + [e]) == Some(c)
    requires o in c.ops && !FinalAt(c0, o) && FinalAt(c, o)
    requires Decider(e, o, cause) && Explains(pre + [e], o, c.ops[o], cause)
    ensures DueTo(pre + [e], o, c.ops[o], |pre|, cause)
  {
    var es, k := pre + [e], |pre|;
    assert es[..k] == pre && es[..k + 1] == es;
  }

  lemma NewIsOpen(c0: Conn, e: Event, c: Conn, o: nat)
    requires ConnInv(c0) && Apply(c0, e) == Some(c) && o in c.ops && Final(c.ops[o].errno)
    ensures o in c0.ops
  {
    if o !in c0.ops {
      ApplyCreates(c0, e, o);
    }
  }

  /** There is only one such event. */
  lemma OneDecider(es: seq<Event>, c: Conn, o: nat, j: nat, k: nat)
    requires Exec(NEW_CONN, es) == Some(c) && j < |es| && k < |es| && DecidesAt(es, j, o) && DecidesAt(es, k, o)
    ensures j == k
  {
    if j < k {
      StaysDecided(es, j, k, o);
    } else if k < j {
      StaysDecided(es, k, j, o);
    }
  }

  lemma StaysDecided(es: seq<Event>, j: nat, k: nat, o: nat)
    requires j < k < |es| && DecidesAt(es, j, o) && Exec(NEW_CONN, es[..k]).Some?
    ensures FinalAt(Exec(NEW_CONN, es[..k]).value, o)
  {
    var c := Exec(NEW_CONN, es[..j + 1]).value;
    assert es[..k] == es[..j + 1] + es[j + 1..k];
    ExecAppend(NEW_CONN, es[..j + 1], es[j + 1..k]);
    ExecKeeps(NEW_CONN, es[..j + 1]);
    ResultNeverChanges(c, es[j + 1..k], o);
  }

  /**
   What gb_operation_sync_timeout returns, on the events of the run: for a request that was refused, the error that the
   hand-over returned; otherwise the result with its one cause.
   */
  lemma SyncOutcome(es: seq<Event>, c: Conn, o: nat)
    requires Exec(NEW_CONN, es) == Some(c) && o in c.ops && c.ops[o].log.outcome.Some?
    ensures var op := c.ops[o]; var ret := op.log.outcome.value;
      && (!op.accepted ==> ret != 0 && OpStep(o, HandOver(ret)) in es)
      && (op.accepted ==> ret == op.errno
                          && exists k: nat, cause :: k < |es| && DueTo(es, o, op, k, cause))
  {
    StoryTold();
    RunTells(Story, es, c, o);
    RunAccounted(es, c);
    OutcomeIsFinal(c.ops[o]);
    if c.ops[o].accepted {
      ResultHasCause(es, c, o);
    }
  }

  lemma OutcomeIsFinal(op: Op)
    requires OpInv(op) && op.log.outcome.Some?
    ensures !op.cfg.incoming && (op.accepted ==> op.log.outcome.value == op.errno && Final(op.errno))
  {
  }

  /** A hand-over on a connection that is not enabled is refused, with -ENOTCONN. */
  lemma NotConnected(c: Conn, o: nat, ret: int)
    requires Apply(c, OpStep(o, HandOver(ret))).Some? && !c.state.Enabled?
    ensures ret == ENOTCONN && o in Apply(c, OpStep(o, HandOver(ret))).value.ops
    ensures Apply(c, OpStep(o, HandOver(ret))).value.ops[o].creator.Refused?
  {
  }
}
