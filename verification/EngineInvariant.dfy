/** What every step of every agent keeps true of one operation. */
module EngineInvariant {
  import opened Common
  import opened Errno
  import opened Engine

  // ------------------------------------------------------------- accounting

  /** Receivers that won the result and have not yet queued the work. */
  function Owing(rs: seq<Receiver>): nat {
    if rs == [] then 0 else Bit(OwesQueue(rs[0])) + Owing(rs[1..])
  }

  predicate OwesQueue(r: Receiver) {
    r.Copying? || r.Queueing?
  }

  /** A canceller of an outgoing operation that won the result and has not yet queued the work. */
  predicate Owes(c: Option<Cancel>) {
    c.Some? && (c.value.phase.Killing? || c.value.phase.CQueueing?)
  }

  predicate InWait(c: Option<Cancel>) {
    c.Some? && (c.value.phase.Prepared? || c.value.phase.Asleep? || c.value.phase.Leaving?)
  }

  predicate Sleeps(c: Option<Cancel>) {
    c.Some? && c.value.phase.Asleep?
  }

  predicate Left(c: Option<Cancel>) {
    c.Some? && (c.value.phase.Leaving? || c.value.phase.Done?)
  }

  predicate CreatorHolds(op: Op) {
    !op.creator.Gone? && !op.creator.InCreated? && !op.creator.InActive? && !op.creator.InArmed?
  }

  /** Everyone who holds a reference. */
  function Refs(op: Op): nat {
    Bit(CreatorHolds(op)) + Bit(op.inflight)
    + Bit(op.response.RespInDevice? || op.response.RespDropping?)
    + |op.receivers| + Bit(op.teardown.Some?)
  }

  /** Handler or completion work, plus a response in flight. */
  function Actives(op: Op): nat {
    Bit(op.inflight && !op.work.Dropped? && !op.creator.InCreated?) + Bit(op.response.RespInDevice?)
  }

  /** Winners that have still to queue the completion work. */
  function Debts(op: Op): nat {
    Owing(op.receivers) + Bit(op.request.ReportWon?) + Bit(Owes(op.syncCancel)) + Bit(Owes(op.teardown))
  }

  predicate Accounts(op: Op) {
    && op.kref == Refs(op)
    && op.log.frees == Bit(op.kref == 0)
    && op.active == Actives(op)
    && op.waiters == Bit(InWait(op.syncCancel)) + Bit(InWait(op.teardown))
    && (Sleeps(op.syncCancel) || Sleeps(op.teardown) ==> op.active > 0)
    && op.log.wins == Bit(Final(op.errno))
    && op.log.queueCalls == Bit(!op.work.Idle?)
    && op.log.runs == Bit(!op.work.Idle? && !op.work.Queued?)
  }

  // ------------------------------------------------------------ life phases

  predicate CancelOk(op: Op, c: Option<Cancel>) {
    c.Some? ==>
      && ErrorResult(c.value.errno)
      && !c.value.phase.Flushed? && !c.value.phase.Crashed?
      && (!c.value.phase.Start? ==> Final(op.errno))
      && (Left(c) ==> op.active == 0)
  }

  /** An outgoing operation that the host device has not been given. */
  predicate Unsent(op: Op) {
    && !op.inflight && op.work.Idle? && op.request.NotSent? && op.receivers == []
    && op.syncCancel.None? && op.teardown.None? && !op.completed && op.log.winner.None?
    && (op.creator.Holding? || op.creator.Numbered? ==> op.errno == EBADR)
    && (op.creator.Armed? || op.creator.Refused? ==> op.errno == EINPROGRESS)
    && (op.creator.Gone? ==> !Final(op.errno))
    && (op.creator.Holding? || op.creator.Numbered? || op.creator.Armed? || op.creator.Refused? || op.creator.Gone?)
    && (op.log.outcome.Some? ==> op.log.outcome.value != 0 && (op.creator.Refused? || op.creator.Gone?))
  }

  /** An outgoing operation that the host device has accepted. */
  predicate Sent(op: Op) {
    && op.errno != EBADR
    && !op.request.NotSent?
    && (op.inflight <==> !op.work.Finished?)
    && op.log.queueCalls + Debts(op) == op.log.wins
    && CancelOk(op, op.syncCancel) && CancelOk(op, op.teardown)
    && (op.syncCancel.Some? <==> op.creator.Cancelling?)
    && (op.syncCancel.Some? ==> !op.syncCancel.value.phase.Done?)
    && (if op.cfg.sync then
          && (op.completed <==> op.log.runs == 1)
          && (op.creator.Awaiting? || op.creator.Cancelling? || op.creator.Collecting?
              || op.creator.Returned? || op.creator.Gone?)
          && (op.creator.Collecting? || op.creator.Returned? || op.creator.Gone? ==> !op.work.Idle?)
          && (op.creator.Returned? || op.creator.Gone? <==> op.log.outcome.Some?)
        else
          && !op.completed && op.log.outcome.None?
          && (op.creator.AsyncSent? || op.creator.Gone?)
          && (op.creator.AsyncSent? <==> op.log.runs == 0))
  }

  predicate NoneCopying(rs: seq<Receiver>) {
    forall i :: 0 <= i < |rs| ==> !rs[i].Copying?
  }

  /** data is a response addressed to op. */
  predicate Addressed(op: Op, data: seq<byte>) {
    WellFormedMessage(data) && MessageId(data) == op.tag.id
  }

  /** The response message behind a result, and where its bytes are. */
  predicate Payload(op: Op) {
    && |op.respBuf| == HEADER + op.cfg.respSize && |op.user| == op.cfg.respSize
    && (forall i :: 0 <= i < |op.receivers| ==>
          match op.receivers[i]
          case Found(data) => Addressed(op, data)
          case Copying(data) => op.log.winner == Some(data)
          case _ => true)
    && (op.log.winner.Some? ==>
          && Addressed(op, op.log.winner.value)
          && op.errno == ResponseErrno(op.log.winner.value, op.cfg.respSize))
    && (op.errno == 0 ==> op.log.winner.Some?)
    && (op.errno == 0 && NoneCopying(op.receivers) ==> op.respBuf == op.log.winner.value[..HEADER + op.cfg.respSize])
    && (op.log.outcome.Some? && op.accepted ==> op.log.outcome.value == op.errno)
    && (op.log.outcome == Some(0) ==>
          op.log.winner.Some? && |op.log.winner.value| >= HEADER + op.cfg.respSize
          && op.user == op.log.winner.value[HEADER..HEADER + op.cfg.respSize])
    && (op.log.outcome != Some(0) ==> op.user == op.cfg.original)
  }

  predicate OutgoingInv(op: Op) {
    && !op.cfg.incoming && !op.cfg.unidirectional && op.response.NoResponse?
    && !op.work.Responding? && !op.work.Sending?
    && !op.creator.InCreated? && !op.creator.InActive? && !op.creator.InArmed?
    && Payload(op)
    && (if op.accepted then Sent(op) else Unsent(op))
  }

  predicate IncomingInv(op: Op) {
    && op.cfg.incoming && op.receivers == [] && op.syncCancel.None? && op.log.winner.None?
    && !op.accepted && op.request.NotSent? && !op.cfg.sync && !op.completed && op.log.outcome.None?
    && (match op.creator
        case InCreated =>
          op.errno == EBADR && op.inflight && op.work.Idle? && op.teardown.None? && op.response.NoResponse?
        case InActive => op.errno == EBADR && op.inflight && op.work.Idle? && op.response.NoResponse?
        case InArmed => op.errno != EBADR && op.inflight && op.work.Idle? && op.response.NoResponse?
        case Gone =>
          if op.work.Idle? then
            op.errno == EBADR && !op.inflight && op.teardown.None? && op.response.NoResponse?
          else
            op.errno != EBADR && (op.inflight <==> !op.work.Finished?)
        case _ => false)
    && (match op.work
        case Queued => op.response.NoResponse?
        case Responding(status) => status != EINPROGRESS && op.response.NoResponse?
        case Sending(_) => Final(op.errno) && !op.cfg.unidirectional && op.response.NoResponse?
        case _ => true)
    && (!op.response.NoResponse? ==> Final(op.errno) && !op.cfg.unidirectional)
    && (op.teardown.Some? ==>
          && ErrorResult(op.teardown.value.errno)
          && !op.teardown.value.phase.CQueueing?
          && (op.cfg.unidirectional ==>
                && !op.teardown.value.phase.Flushed? && !op.teardown.value.phase.Killing?
                && !op.teardown.value.phase.Crashed?))
  }

  predicate OpInv(op: Op) {
    Accounts(op) && (if op.cfg.incoming then IncomingInv(op) else OutgoingInv(op))
  }

  // ---------------------------------------------------------------- counting

  lemma {:induction false} OwingUpdate(rs: seq<Receiver>, i: nat, r: Receiver)
    requires i < |rs|
    ensures Owing(rs[i := r]) + Bit(OwesQueue(rs[i])) == Owing(rs) + Bit(OwesQueue(r))
  {
    if i == 0 {
      assert rs[i := r][1..] == rs[1..];
    } else {
      OwingUpdate(rs[1..], i - 1, r);
      assert rs[i := r][1..] == rs[1..][i - 1 := r];
    }
  }

  lemma {:induction false} OwingRemove(rs: seq<Receiver>, i: nat)
    requires i < |rs|
    ensures Owing(RemoveAt(rs, i)) + Bit(OwesQueue(rs[i])) == Owing(rs)
  {
    if i == 0 {
      assert RemoveAt(rs, i) == rs[1..];
    } else {
      OwingRemove(rs[1..], i - 1);
      assert RemoveAt(rs, i) == [rs[0]] + RemoveAt(rs[1..], i - 1);
    }
  }

  lemma {:induction false} OwingAppend(rs: seq<Receiver>, r: Receiver)
    ensures Owing(rs + [r]) == Owing(rs) + Bit(OwesQueue(r))
  {
    if rs == [] {
      assert rs + [r] == [r];
    } else {
      OwingAppend(rs[1..], r);
      assert (rs + [r])[1..] == rs[1..] + [r];
    }
  }

  lemma NoneCopyingUpdate(rs: seq<Receiver>, i: nat, r: Receiver)
    requires i < |rs| && !rs[i].Copying?
    ensures NoneCopying(rs[i := r]) ==> NoneCopying(rs)
  {
    assert forall j :: 0 <= j < |rs| && j != i ==> rs[i := r][j] == rs[j];
  }

  lemma NoneCopyingRemove(rs: seq<Receiver>, i: nat)
    requires i < |rs| && !rs[i].Copying?
    ensures NoneCopying(RemoveAt(rs, i)) ==> NoneCopying(rs)
  {
    var t := RemoveAt(rs, i);
    assert forall j :: 0 <= j < i ==> t[j] == rs[j];
    assert forall j :: i < j < |rs| ==> t[j - 1] == rs[j];
  }

  /** One debtor is enough to make the sum positive. */
  lemma {:induction false} OwingMember(rs: seq<Receiver>, i: nat)
    requires i < |rs| && OwesQueue(rs[i])
    ensures Owing(rs) >= 1
  {
    if i > 0 {
      OwingMember(rs[1..], i - 1);
    }
  }

  /** Two debtors make it at least two. */
  lemma {:induction false} OwingPair(rs: seq<Receiver>, i: nat, j: nat)
    requires i < j < |rs| && OwesQueue(rs[i]) && OwesQueue(rs[j])
    ensures Owing(rs) >= 2
  {
    if i == 0 {
      OwingMember(rs[1..], j - 1);
    } else {
      OwingPair(rs[1..], i - 1, j - 1);
    }
  }

  // ------------------------------------------------------------ preservation

  /** What a step may do to the list, seen from the active count. */
  predicate LinksMatch(op: Op, e: Effect) {
    match e.links
    case Keep => op.active > 0 <==> e.op.active > 0
    case Add => op.active == 0 && e.op.active > 0
    case Remove => op.active > 0 && e.op.active == 0
  }

  /** Once every winner has queued the work, the response has been copied. */
  lemma NoDebtIsCopied(op: Op)
    requires Owing(op.receivers) == 0
    ensures NoneCopying(op.receivers)
  {
    forall i | 0 <= i < |op.receivers| ensures !op.receivers[i].Copying? {
      if op.receivers[i].Copying? {
        OwingMember(op.receivers, i);
      }
    }
  }

  // Receivers.

  lemma ReceiverDecides(op: Op, s: Step)
    requires OpInv(op) && ReceiverMove(op, s).Some?
    requires s.ReceiverDecide?
    ensures OpInv(ReceiverMove(op, s).value.op) && LinksMatch(op, ReceiverMove(op, s).value)
  {
    var op', i := ReceiverMove(op, s).value.op, s.i;
    OwingUpdate(op.receivers, i, op'.receivers[i]);
    NoneCopyingUpdate(op.receivers, i, op'.receivers[i]);
    assert op'.receivers[i].Copying? <==> Wins(op, ResponseErrno(op.receivers[i].data, op.cfg.respSize));
  }

  lemma ReceiverCopies(op: Op, s: Step)
    requires OpInv(op) && ReceiverMove(op, s).Some?
    requires s.ReceiverCopy?
    ensures OpInv(ReceiverMove(op, s).value.op) && LinksMatch(op, ReceiverMove(op, s).value)
  {
    var op' := ReceiverMove(op, s).value.op;
    OwingUpdate(op.receivers, s.i, op'.receivers[s.i]);
  }

  lemma ReceiverQueues(op: Op, s: Step)
    requires OpInv(op) && ReceiverMove(op, s).Some?
    requires s.ReceiverQueue?
    ensures OpInv(ReceiverMove(op, s).value.op) && LinksMatch(op, ReceiverMove(op, s).value)
  {
    var op' := ReceiverMove(op, s).value.op;
    OwingUpdate(op.receivers, s.i, op'.receivers[s.i]);
    OwingMember(op.receivers, s.i);
    NoneCopyingUpdate(op.receivers, s.i, op'.receivers[s.i]);
  }

  lemma ReceiverPuts(op: Op, s: Step)
    requires OpInv(op) && ReceiverMove(op, s).Some?
    requires s.ReceiverPut?
    ensures OpInv(ReceiverMove(op, s).value.op) && LinksMatch(op, ReceiverMove(op, s).value)
  {
    var op' := ReceiverMove(op, s).value.op;
    OwingRemove(op.receivers, s.i);
    PutPayload(op, s.i, op');
    assert Accounts(op');
  }

  lemma PutPayload(op: Op, i: nat, op': Op)
    requires Payload(op) && i < |op.receivers| && op.receivers[i].Putting?
    requires op' == Put(op).(receivers := RemoveAt(op.receivers, i))
    ensures Payload(op')
  {
    NoneCopyingRemove(op.receivers, i);
  }

  lemma LookupKeeps(op: Op, s: Step)
    requires OpInv(op) && ReceiverMove(op, s).Some?
    requires s.Lookup?
    requires op.active > 0
    ensures OpInv(ReceiverMove(op, s).value.op) && LinksMatch(op, ReceiverMove(op, s).value)
  {
    OwingAppend(op.receivers, Found(s.data));
    var rs := op.receivers + [Found(s.data)];
    assert forall j :: 0 <= j < |op.receivers| ==> rs[j] == op.receivers[j];
  }

  // Cancellers, a few phases at a time.

  lemma SyncDecides(op: Op)
    requires OpInv(op) && !op.cfg.incoming && op.syncCancel.Some? && PhaseMove(op, Sync).Some?
    requires op.syncCancel.value.phase.Start?
    ensures OpInv(PhaseMove(op, Sync).value.op) && LinksMatch(op, PhaseMove(op, Sync).value)
  {
  }

  lemma SyncQueues(op: Op)
    requires OpInv(op) && !op.cfg.incoming && op.syncCancel.Some? && PhaseMove(op, Sync).Some?
    requires op.syncCancel.value.phase.Killing? || op.syncCancel.value.phase.CQueueing?
    ensures OpInv(PhaseMove(op, Sync).value.op) && LinksMatch(op, PhaseMove(op, Sync).value)
  {
  }

  lemma SyncCounts(op: Op)
    requires OpInv(op) && !op.cfg.incoming && op.syncCancel.Some? && PhaseMove(op, Sync).Some?
    requires op.syncCancel.value.phase.Counting? || op.syncCancel.value.phase.Leaving?
    ensures OpInv(PhaseMove(op, Sync).value.op) && LinksMatch(op, PhaseMove(op, Sync).value)
  {
  }

  lemma SyncChecks(op: Op)
    requires OpInv(op) && !op.cfg.incoming && op.syncCancel.Some? && PhaseMove(op, Sync).Some?
    requires op.syncCancel.value.phase.Prepared?
    ensures OpInv(PhaseMove(op, Sync).value.op) && LinksMatch(op, PhaseMove(op, Sync).value)
  {
  }

  lemma TeardownDecides(op: Op)
    requires OpInv(op) && !op.cfg.incoming && op.teardown.Some? && PhaseMove(op, Teardown).Some?
    requires op.teardown.value.phase.Start?
    ensures OpInv(PhaseMove(op, Teardown).value.op) && LinksMatch(op, PhaseMove(op, Teardown).value)
  {
  }

  lemma TeardownQueues(op: Op)
    requires OpInv(op) && !op.cfg.incoming && op.teardown.Some? && PhaseMove(op, Teardown).Some?
    requires op.teardown.value.phase.Killing? || op.teardown.value.phase.CQueueing?
    ensures OpInv(PhaseMove(op, Teardown).value.op) && LinksMatch(op, PhaseMove(op, Teardown).value)
  {
  }

  lemma TeardownCounts(op: Op)
    requires OpInv(op) && !op.cfg.incoming && op.teardown.Some? && PhaseMove(op, Teardown).Some?
    requires op.teardown.value.phase.Counting? || op.teardown.value.phase.Leaving?
    ensures OpInv(PhaseMove(op, Teardown).value.op) && LinksMatch(op, PhaseMove(op, Teardown).value)
  {
  }

  lemma TeardownChecks(op: Op)
    requires OpInv(op) && !op.cfg.incoming && op.teardown.Some? && PhaseMove(op, Teardown).Some?
    requires op.teardown.value.phase.Prepared?
    ensures OpInv(PhaseMove(op, Teardown).value.op) && LinksMatch(op, PhaseMove(op, Teardown).value)
  {
  }

  lemma AfterStart(op: Op, phase: Phase)
    requires OpInv(op) && op.cfg.incoming && op.teardown.Some? && op.teardown.value.phase.Start?
    requires if op.cfg.unidirectional then phase.Counting? else phase.Flushed?
    ensures OpInv(SetPhase(op, Teardown, phase))
  {
  }

  lemma IncomingFlushes(op: Op)
    requires OpInv(op) && op.cfg.incoming && op.teardown.Some? && PhaseMove(op, Teardown).Some?
    requires op.teardown.value.phase.Start?
    ensures OpInv(PhaseMove(op, Teardown).value.op) && LinksMatch(op, PhaseMove(op, Teardown).value)
  {
    AfterStart(op, if op.cfg.unidirectional then Counting else Flushed);
  }

  lemma IncomingDecides(op: Op)
    requires OpInv(op) && op.cfg.incoming && op.teardown.Some? && PhaseMove(op, Teardown).Some?
    requires op.teardown.value.phase.Flushed?
    ensures OpInv(PhaseMove(op, Teardown).value.op) && LinksMatch(op, PhaseMove(op, Teardown).value)
  {
  }

  lemma IncomingKills(op: Op)
    requires OpInv(op) && op.cfg.incoming && op.teardown.Some? && PhaseMove(op, Teardown).Some?
    requires op.teardown.value.phase.Killing?
    ensures OpInv(PhaseMove(op, Teardown).value.op) && LinksMatch(op, PhaseMove(op, Teardown).value)
  {
  }

  lemma IncomingWaits(op: Op)
    requires OpInv(op) && op.cfg.incoming && op.teardown.Some? && PhaseMove(op, Teardown).Some?
    requires op.teardown.value.phase.Counting? || op.teardown.value.phase.Prepared? || op.teardown.value.phase.Leaving?
    ensures OpInv(PhaseMove(op, Teardown).value.op) && LinksMatch(op, PhaseMove(op, Teardown).value)
  {
  }

  lemma CancelKeeps(op: Op, who: Who)
    requires OpInv(op) && Slot(op, who).Some? && PhaseMove(op, who).Some?
    ensures OpInv(PhaseMove(op, who).value.op) && LinksMatch(op, PhaseMove(op, who).value)
  {
    var phase := Slot(op, who).value.phase;
    if op.cfg.incoming {
      match phase
      case Start => IncomingFlushes(op);
      case Flushed => IncomingDecides(op);
      case Killing => IncomingKills(op);
      case _ => IncomingWaits(op);
    } else if who.Sync? {
      match phase
      case Start => SyncDecides(op);
      case Prepared => SyncChecks(op);
      case Counting => SyncCounts(op);
      case Leaving => SyncCounts(op);
      case _ => SyncQueues(op);
    } else {
      match phase
      case Start => TeardownDecides(op);
      case Prepared => TeardownChecks(op);
      case Counting => TeardownCounts(op);
      case Leaving => TeardownCounts(op);
      case _ => TeardownQueues(op);
    }
  }

  // Creator, host device, work item and receive interrupt.

  lemma CollectKeeps(op: Op)
    requires OpInv(op) && CreatorMove(true, op, Collect).Some?
    ensures OpInv(CreatorMove(true, op, Collect).value.op)
  {
    NoDebtIsCopied(op);
    if op.errno == 0 {
      var n := HEADER + op.cfg.respSize;
      assert op.log.winner.value[..n][HEADER..] == op.log.winner.value[HEADER..n];
    }
  }

  lemma SendKeeps(enabled: bool, op: Op, s: Step)
    requires OpInv(op) && CreatorMove(enabled, op, s).Some?
    requires s.AssignId? || s.Arm?
    ensures OpInv(CreatorMove(enabled, op, s).value.op) && LinksMatch(op, CreatorMove(enabled, op, s).value)
  {
  }

  lemma DestroyKeeps(enabled: bool, op: Op, s: Step)
    requires OpInv(op) && CreatorMove(enabled, op, s).Some?
    requires s.Destroy?
    ensures OpInv(CreatorMove(enabled, op, s).value.op) && LinksMatch(op, CreatorMove(enabled, op, s).value)
  {
  }

  lemma WaitKeeps(enabled: bool, op: Op, s: Step)
    requires OpInv(op) && CreatorMove(enabled, op, s).Some?
    requires s.CompletionSeen? || s.GiveUp?
    ensures OpInv(CreatorMove(enabled, op, s).value.op) && LinksMatch(op, CreatorMove(enabled, op, s).value)
  {
  }

  lemma HandOverKeeps(enabled: bool, op: Op, s: Step)
    requires OpInv(op) && CreatorMove(enabled, op, s).Some?
    requires s.HandOver?
    ensures OpInv(CreatorMove(enabled, op, s).value.op) && LinksMatch(op, CreatorMove(enabled, op, s).value)
  {
  }

  lemma SendOkKeeps(op: Op, s: Step)
    requires OpInv(op) && DeviceMove(op, s).Some?
    requires s == SendReport(0)
    ensures OpInv(DeviceMove(op, s).value.op) && LinksMatch(op, DeviceMove(op, s).value)
  {
  }

  lemma SendErrorKeeps(op: Op, s: Step)
    requires OpInv(op) && DeviceMove(op, s).Some?
    requires s.SendReport? && s.status != 0
    ensures OpInv(DeviceMove(op, s).value.op) && LinksMatch(op, DeviceMove(op, s).value)
  {
  }

  lemma SendReportQueueKeeps(op: Op, s: Step)
    requires OpInv(op) && DeviceMove(op, s).Some?
    requires s.SendReportQueue?
    ensures OpInv(DeviceMove(op, s).value.op) && LinksMatch(op, DeviceMove(op, s).value)
  {
  }

  lemma ClearKeeps(op: Op, s: Step)
    requires OpInv(op) && DeviceMove(op, s).Some?
    requires s.ClearRequest? || s.ClearResponse?
    ensures OpInv(DeviceMove(op, s).value.op) && LinksMatch(op, DeviceMove(op, s).value)
  {
  }

  lemma ResponseKeeps(op: Op, s: Step)
    requires OpInv(op) && DeviceMove(op, s).Some?
    requires s.ResponseReport? || s.ResponsePut?
    ensures OpInv(DeviceMove(op, s).value.op) && LinksMatch(op, DeviceMove(op, s).value)
  {
  }

  lemma SyncCallbackKeeps(enabled: bool, op: Op, s: Step)
    requires OpInv(op) && WorkMove(enabled, op, s).Some?
    requires s.RunCallback? && op.cfg.sync
    ensures OpInv(WorkMove(enabled, op, s).value.op) && LinksMatch(op, WorkMove(enabled, op, s).value)
  {
  }

  lemma AsyncCallbackKeeps(enabled: bool, op: Op, s: Step)
    requires OpInv(op) && WorkMove(enabled, op, s).Some?
    requires s.RunCallback? && !op.cfg.sync
    ensures OpInv(WorkMove(enabled, op, s).value.op) && LinksMatch(op, WorkMove(enabled, op, s).value)
  {
  }

  lemma HandlerKeeps(enabled: bool, op: Op, s: Step)
    requires OpInv(op) && WorkMove(enabled, op, s).Some?
    requires s.NoHandler? || s.HandlerReturns? || s.RecordStatus?
    ensures OpInv(WorkMove(enabled, op, s).value.op) && LinksMatch(op, WorkMove(enabled, op, s).value)
  {
  }

  lemma ResponseSent(op: Op)
    requires OpInv(op) && op.work.Sending?
    ensures var e := SendResponseMove(true, op, op.work.status, 0).value; OpInv(e.op) && LinksMatch(op, e)
  {
  }

  lemma ResponseRefused(op: Op)
    requires OpInv(op) && op.work.Sending?
    ensures OpInv(op.(work := Called))
  {
  }

  lemma SendResponseKeeps(enabled: bool, op: Op, s: Step)
    requires OpInv(op) && WorkMove(enabled, op, s).Some?
    requires s.SendResponse?
    ensures OpInv(WorkMove(enabled, op, s).value.op) && LinksMatch(op, WorkMove(enabled, op, s).value)
  {
    if enabled && s.ret == 0 {
      ResponseSent(op);
    } else {
      ResponseRefused(op);
    }
  }

  lemma OutgoingPutActive(op: Op)
    requires OpInv(op) && op.work.Called? && !op.cfg.incoming
    ensures var e := PutActive(op.(work := Dropped)); OpInv(e.op) && LinksMatch(op, e)
  {
    OutgoingPutAccounts(op);
    OutgoingPutRest(op);
  }

  lemma OutgoingPutAccounts(op: Op)
    requires OpInv(op) && op.work.Called? && !op.cfg.incoming
    ensures var e := PutActive(op.(work := Dropped)); Accounts(e.op) && LinksMatch(op, e)
  {
  }

  lemma OutgoingPutRest(op: Op)
    requires OpInv(op) && op.work.Called? && !op.cfg.incoming
    ensures OutgoingInv(PutActive(op.(work := Dropped)).op)
  {
  }

  lemma IncomingPutActive(op: Op)
    requires OpInv(op) && op.work.Called? && op.cfg.incoming
    ensures var e := PutActive(op.(work := Dropped)); OpInv(e.op) && LinksMatch(op, e)
  {
  }

  lemma WorkPutKeeps(enabled: bool, op: Op, s: Step)
    requires OpInv(op) && WorkMove(enabled, op, s).Some?
    requires s.WorkPut?
    ensures OpInv(WorkMove(enabled, op, s).value.op) && LinksMatch(op, WorkMove(enabled, op, s).value)
  {
  }

  lemma RequestActivateKeeps(enabled: bool, op: Op, s: Step)
    requires OpInv(op) && InterruptMove(enabled, op, s).Some?
    requires s.RequestActivate?
    ensures OpInv(InterruptMove(enabled, op, s).value.op) && LinksMatch(op, InterruptMove(enabled, op, s).value)
  {
  }

  lemma RequestKeeps(enabled: bool, op: Op, s: Step)
    requires OpInv(op) && InterruptMove(enabled, op, s).Some?
    requires s.RequestArm? || s.RequestQueue?
    ensures OpInv(InterruptMove(enabled, op, s).value.op) && LinksMatch(op, InterruptMove(enabled, op, s).value)
  {
  }

  lemma CancelEndKeeps(op: Op, s: Step)
    requires OpInv(op) && HoldMove(op, s).Some?
    requires s.CancelEnd?
    ensures OpInv(HoldMove(op, s).value.op) && LinksMatch(op, HoldMove(op, s).value)
  {
  }

  lemma WakeSyncKeeps(op: Op, s: Step)
    requires OpInv(op) && HoldMove(op, s).Some?
    requires s == SpuriousWake(Sync)
    ensures OpInv(HoldMove(op, s).value.op) && LinksMatch(op, HoldMove(op, s).value)
  {
  }

  lemma WakeTeardownKeeps(op: Op, s: Step)
    requires OpInv(op) && HoldMove(op, s).Some?
    requires s == SpuriousWake(Teardown)
    ensures OpInv(HoldMove(op, s).value.op) && LinksMatch(op, HoldMove(op, s).value)
  {
  }

  lemma CancelBeginKeeps(op: Op, s: Step)
    requires OpInv(op) && HoldMove(op, s).Some?
    requires s.CancelBegin?
    requires op.active > 0
    ensures OpInv(HoldMove(op, s).value.op) && LinksMatch(op, HoldMove(op, s).value)
  {
  }

  lemma CreatorKeeps(enabled: bool, op: Op, s: Step)
    requires OpInv(op) && CreatorMove(enabled, op, s).Some?
    ensures OpInv(CreatorMove(enabled, op, s).value.op) && LinksMatch(op, CreatorMove(enabled, op, s).value)
  {
    match s
    case AssignId(_) => SendKeeps(enabled, op, s);
    case Arm => SendKeeps(enabled, op, s);
    case Destroy => DestroyKeeps(enabled, op, s);
    case CompletionSeen => WaitKeeps(enabled, op, s);
    case GiveUp(_) => WaitKeeps(enabled, op, s);
    case HandOver(_) => HandOverKeeps(enabled, op, s);
    case Collect => CollectKeeps(op);
  }

  lemma DeviceKeeps(op: Op, s: Step)
    requires OpInv(op) && DeviceMove(op, s).Some?
    ensures OpInv(DeviceMove(op, s).value.op) && LinksMatch(op, DeviceMove(op, s).value)
  {
    match s
    case SendReport(status) => if status == 0 { SendOkKeeps(op, s); } else { SendErrorKeeps(op, s); }
    case SendReportQueue => SendReportQueueKeeps(op, s);
    case ResponseReport => ResponseKeeps(op, s);
    case ResponsePut => ResponseKeeps(op, s);
    case ClearRequest => ClearKeeps(op, s);
    case ClearResponse => ClearKeeps(op, s);
  }

  lemma WorkKeeps(enabled: bool, op: Op, s: Step)
    requires OpInv(op) && WorkMove(enabled, op, s).Some?
    ensures OpInv(WorkMove(enabled, op, s).value.op) && LinksMatch(op, WorkMove(enabled, op, s).value)
  {
    match s
    case RunCallback =>
      if op.cfg.sync { SyncCallbackKeeps(enabled, op, s); } else { AsyncCallbackKeeps(enabled, op, s); }
    case NoHandler => HandlerKeeps(enabled, op, s);
    case HandlerReturns(_, _) => HandlerKeeps(enabled, op, s);
    case RecordStatus => HandlerKeeps(enabled, op, s);
    case SendResponse(_) => SendResponseKeeps(enabled, op, s);
    case WorkPutActive =>
      if op.cfg.incoming { IncomingPutActive(op); } else { OutgoingPutActive(op); }
    case WorkPut => WorkPutKeeps(enabled, op, s);
  }

  lemma InterruptKeeps(enabled: bool, op: Op, s: Step)
    requires OpInv(op) && InterruptMove(enabled, op, s).Some?
    ensures OpInv(InterruptMove(enabled, op, s).value.op) && LinksMatch(op, InterruptMove(enabled, op, s).value)
  {
    match s
    case RequestActivate => RequestActivateKeeps(enabled, op, s);
    case RequestArm => RequestKeeps(enabled, op, s);
    case RequestQueue => RequestKeeps(enabled, op, s);
  }

  lemma HoldKeeps(op: Op, s: Step)
    requires OpInv(op) && HoldMove(op, s).Some?
    requires s.CancelBegin? ==> op.active > 0
    ensures OpInv(HoldMove(op, s).value.op) && LinksMatch(op, HoldMove(op, s).value)
  {
    match s
    case CancelEnd => CancelEndKeeps(op, s);
    case SpuriousWake(who) => if who.Sync? { WakeSyncKeeps(op, s); } else { WakeTeardownKeeps(op, s); }
    case CancelBegin(_) => CancelBeginKeeps(op, s);
  }

  lemma ReceiverKeeps(op: Op, s: Step)
    requires OpInv(op) && ReceiverMove(op, s).Some?
    requires s.Lookup? ==> op.active > 0
    ensures OpInv(ReceiverMove(op, s).value.op) && LinksMatch(op, ReceiverMove(op, s).value)
  {
    match s
    case ReceiverDecide(_) => ReceiverDecides(op, s);
    case ReceiverCopy(_) => ReceiverCopies(op, s);
    case ReceiverQueue(_) => ReceiverQueues(op, s);
    case ReceiverPut(_) => ReceiverPuts(op, s);
    case Lookup(_) => LookupKeeps(op, s);
  }

  /** Every step of every agent keeps the operation's invariant, and links it on and off the
      connection's list exactly when its active count leaves or reaches zero. */
  lemma MoveKeeps(enabled: bool, op: Op, s: Step)
    requires OpInv(op) && Move(enabled, op, s).Some?
    requires s.CancelBegin? || s.Lookup? ==> op.active > 0
    ensures OpInv(Move(enabled, op, s).value.op) && LinksMatch(op, Move(enabled, op, s).value)
  {
    match AgentOf(s)
    case ByCreator => CreatorKeeps(enabled, op, s);
    case ByDevice => DeviceKeeps(op, s);
    case ByReceiver => ReceiverKeeps(op, s);
    case ByWork => WorkKeeps(enabled, op, s);
    case ByInterrupt => InterruptKeeps(enabled, op, s);
    case ByCanceller => CancelKeeps(op, s.who);
    case ByHold => HoldKeeps(op, s);
  }
}
