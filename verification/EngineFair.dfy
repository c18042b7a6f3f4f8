/** Infinite runs under a fair schedule: operations drain, cancellers return, and teardown ends. */
module EngineFair {
  import opened Common
  import opened Errno
  import opened Engine
  import opened EngineInvariant
  import opened EngineRuns
  import opened EngineLift
  import opened EngineFault
  import opened EngineProgress
  import opened EngineTeardown

  // ------------------------------------------------------------------ traces

  /** An infinite run: event n leads from state n to state n + 1. */
  ghost predicate Trace(cs: nat -> Conn, es: nat -> Event) {
    forall n: nat :: StepAt(cs, es, n)
  }

  ghost predicate StepAt(cs: nat -> Conn, es: nat -> Event, n: nat) {
    Apply(cs(n), es(n)) == Some(cs(n + 1))
  }

  /** From a reachable state on. */
  ghost predicate Run(cs: nat -> Conn, es: nat -> Event) {
    Trace(cs, es) && Reachable(cs(0))
  }

  lemma {:induction false} RunGood(cs: nat -> Conn, es: nat -> Event, n: nat)
    requires Run(cs, es)
    ensures Good(cs(n))
  {
    if n == 0 {
      ReachableFault(cs(0));
    } else {
      RunGood(cs, es, n - 1);
      assert StepAt(cs, es, n - 1);
      ApplyGood(cs(n - 1), es(n - 1));
    }
  }

  lemma RunStep(cs: nat -> Conn, es: nat -> Event, n: nat)
    requires Run(cs, es)
    ensures Good(cs(n)) && Apply(cs(n), es(n)) == Some(cs(n + 1))
  {
    RunGood(cs, es, n);
    assert StepAt(cs, es, n);
  }

  // ---------------------------------------------------------------- fairness

  /** Somebody who owes o something can move. */
  ghost predicate HelpReady(c: Conn, o: nat) {
    o in c.ops && exists s :: Helping(c.ops[o], s) && !ConnectionStep(s) && Move(c.state.Enabled?, c.ops[o], s).Some?
  }

  ghost predicate HelpersAct(cs: nat -> Conn, es: nat -> Event, o: nat, m: nat) {
    HelpReady(cs(m), o) ==> Helped(cs(m), es(m), o)
  }

  /** At n or later, nobody who owes o something can move, or one of them does. */
  ghost predicate HelpersActFrom(cs: nat -> Conn, es: nat -> Event, o: nat, n: nat) {
    exists m: nat :: m >= n && HelpersAct(cs, es, o, m)
  }

  ghost predicate CancelReady(c: Conn, o: nat, who: Who) {
    o in c.ops && Move(c.state.Enabled?, c.ops[o], CancelStep(who)).Some?
  }

  ghost predicate CancellerActs(cs: nat -> Conn, es: nat -> Event, o: nat, who: Who, m: nat) {
    CancelReady(cs(m), o, who) ==> es(m) == OpStep(o, CancelStep(who))
  }

  ghost predicate CancellerActsFrom(cs: nat -> Conn, es: nat -> Event, o: nat, who: Who, n: nat) {
    exists m: nat :: m >= n && CancellerActs(cs, es, o, who, m)
  }

  /** The canceller has returned, or waits for the loop to drop its reference. */
  predicate CancelOver(op: Op, who: Who) {
    Slot(op, who).None? || Slot(op, who).value.phase.Done?
  }

  predicate OfLoop(e: Event) {
    e.Pick? || e.Drop? || e.EndLoop?
  }

  /** The loop can move: it is at its top, or its canceller has returned. */
  predicate LoopReady(c: Conn) {
    c.loop.Picking? || (c.loop.Busy? && c.loop.op in c.ops && CancelOver(c.ops[c.loop.op], Teardown))
  }

  ghost predicate LoopActs(cs: nat -> Conn, es: nat -> Event, m: nat) {
    LoopReady(cs(m)) ==> OfLoop(es(m))
  }

  ghost predicate LoopActsFrom(cs: nat -> Conn, es: nat -> Event, n: nat) {
    exists m: nat :: m >= n && LoopActs(cs, es, m)
  }

  /** Those who owe o something are not put off forever while one of them can move. */
  ghost predicate FairHelpers(cs: nat -> Conn, es: nat -> Event, o: nat) {
    forall n: nat :: HelpersActFrom(cs, es, o, n)
  }

  ghost predicate FairCanceller(cs: nat -> Conn, es: nat -> Event, o: nat, who: Who) {
    forall n: nat :: CancellerActsFrom(cs, es, o, who, n)
  }

  /** Weak fairness for everybody who takes part in teardown. */
  ghost predicate Fair(cs: nat -> Conn, es: nat -> Event) {
    && (forall o: nat :: FairHelpers(cs, es, o))
    && (forall o: nat, who :: FairCanceller(cs, es, o, who))
    && (forall n: nat :: LoopActsFrom(cs, es, n))
  }

  // ---------------------------------------------------------------- draining

  lemma {:induction false} RankFalls(cs: nat -> Conn, es: nat -> Event, o: nat, n: nat, m: nat)
    requires Run(cs, es) && n <= m && SettledAt(cs(n), o)
    ensures SettledAt(cs(m), o) && DrainRank(cs(m).ops[o]) <= DrainRank(cs(n).ops[o])
    decreases m - n
  {
    if n < m {
      RunStep(cs, es, n);
      ApplySinks(cs(n), es(n), o);
      RankFalls(cs, es, o, n + 1, m);
    }
  }

  /** A fair run brings a settled operation to rest. */
  lemma {:induction false} ComesToRest(cs: nat -> Conn, es: nat -> Event, o: nat, n: nat) returns (m: nat)
    requires Run(cs, es) && FairHelpers(cs, es, o) && SettledAt(cs(n), o)
    ensures m >= n && SettledAt(cs(m), o) && Quiet(cs(m).ops[o])
    decreases DrainRank(cs(n).ops[o])
  {
    if Quiet(cs(n).ops[o]) {
      m := n;
    } else {
      assert HelpersActFrom(cs, es, o, n);
      var k: nat :| k >= n && HelpersAct(cs, es, o, k);
      RankFalls(cs, es, o, n, k);
      if Quiet(cs(k).ops[o]) {
        m := k;
      } else {
        HelpAt(cs, es, o, k);
        m := ComesToRest(cs, es, o, k + 1);
      }
    }
  }

  lemma HelpAt(cs: nat -> Conn, es: nat -> Event, o: nat, k: nat)
    requires Run(cs, es) && HelpersAct(cs, es, o, k) && SettledAt(cs(k), o) && !Quiet(cs(k).ops[o])
    ensures SettledAt(cs(k + 1), o) && DrainRank(cs(k + 1).ops[o]) < DrainRank(cs(k).ops[o])
  {
    RunStep(cs, es, k);
    UnquietIsReady(cs(k), o);
    ApplySinks(cs(k), es(k), o);
  }

  lemma UnquietIsReady(c: Conn, o: nat)
    requires ConnInv(c) && o in c.ops && !Quiet(c.ops[o])
    ensures HelpReady(c, o)
  {
    UnquietHasHelper(c.state.Enabled?, c.ops[o]);
  }

  // ---------------------------------------------------------------- at rest

  lemma WorkRests(enabled: bool, op: Op, s: Step)
    requires op.work.Idle? || op.work.Finished?
    ensures WorkMove(enabled, op, s).None?
  {
  }

  lemma DeviceRests(op: Op, s: Step)
    requires RequestRank(op.request) == 0 && ResponseRank(op.response) == 0
    ensures DeviceMove(op, s).None?
  {
  }

  lemma ReceiverRests(op: Op, s: Step)
    requires CopyRank(op.receivers) == 0 && ReceiverMove(op, s).Some?
    ensures ReceiverMove(op, s).value.op.work == op.work
  {
    if s.ReceiverQueue? {
      CopyRankUpdate(op.receivers, s.i, Putting);
    }
  }

  lemma CancelRests(op: Op, s: Step)
    requires CancelMove(op, s).Some? && !Slot(op, s.who).value.phase.CQueueing?
    ensures CancelMove(op, s).value.op.work == op.work
  {
    CancelShape(op, s.who);
  }

  lemma OthersRest(enabled: bool, op: Op, s: Step)
    requires StartRank(op.creator) == 0
    ensures CreatorMove(enabled, op, s).Some? ==> CreatorMove(enabled, op, s).value.op.work == op.work
    ensures InterruptMove(enabled, op, s).Some? ==> InterruptMove(enabled, op, s).value.op.work == op.work
    ensures HoldMove(op, s).Some? ==> HoldMove(op, s).value.op.work == op.work
  {
  }

  lemma NoQueueing(op: Op, who: Who)
    requires OpInv(op) && Quiet(op) && Slot(op, who).Some?
    ensures !Slot(op, who).value.phase.CQueueing?
  {
  }

  lemma WorkStays(enabled: bool, op: Op, s: Step)
    requires OpInv(op) && Quiet(op) && Move(enabled, op, s).Some?
    ensures Move(enabled, op, s).value.op.work == op.work
  {
    match AgentOf(s)
    case ByDevice => DeviceRests(op, s);
    case ByReceiver => ReceiverRests(op, s);
    case ByWork => WorkRests(enabled, op, s);
    case ByCanceller =>
      NoQueueing(op, s.who);
      CancelRests(op, s);
    case _ => OthersRest(enabled, op, s);
  }

  /** An operation at rest stays at rest. */
  lemma RestStays(c: Conn, e: Event, o: nat)
    requires ConnInv(c) && SettledAt(c, o) && Quiet(c.ops[o]) && Apply(c, e).Some?
    ensures SettledAt(Apply(c, e).value, o) && Quiet(Apply(c, e).value.ops[o])
  {
    ApplySinks(c, e, o);
    ApplySteps(c, e, o);
    var op, op' := c.ops[o], Apply(c, e).value.ops[o];
    if op' != op {
      var s :| StepOk(c.state.Destroying?, c.state.Enabled?, op, s) && op' == Move(c.state.Enabled?, op, s).value.op;
      WorkStays(c.state.Enabled?, op, s);
    }
  }

  lemma {:induction false} RestsOn(cs: nat -> Conn, es: nat -> Event, o: nat, n: nat, m: nat)
    requires Run(cs, es) && n <= m && SettledAt(cs(n), o) && Quiet(cs(n).ops[o])
    ensures SettledAt(cs(m), o) && Quiet(cs(m).ops[o]) && cs(m).ops[o].active == 0
    decreases m - n
  {
    RunStep(cs, es, n);
    if n < m {
      RestStays(cs(n), es(n), o);
      RestsOn(cs, es, o, n + 1, m);
    } else {
      RestIsInactive(cs(n).ops[o]);
    }
  }

  lemma RestIsInactive(op: Op)
    requires OpInv(op) && Decided(op) && Quiet(op)
    ensures op.active == 0
  {
    if op.active > 0 {
      ActiveIsUnquiet(op);
    }
  }

  /** o is inactive, off the list, and nobody sleeps on it. */
  ghost predicate Over(c: Conn, o: nat) {
    && o in c.ops && c.ops[o].active == 0 && o !in c.list
    && !Sleeps(c.ops[o].syncCancel) && !Sleeps(c.ops[o].teardown)
  }

  ghost predicate OverFrom(cs: nat -> Conn, o: nat, m: nat) {
    forall k: nat :: k >= m ==> Over(cs(k), o)
  }

  /**
   In every fair run, in every connection state, an outgoing operation with a final result comes to be inactive and off
   the list for good, with no canceller asleep on it; so does every incoming operation of a connection that is being
   destroyed.  Fair means that agents which owe the operation something are not put off forever while one of them can
   move; what they report or return is free.
   */
  lemma FairRunDrains(cs: nat -> Conn, es: nat -> Event, o: nat, n: nat)
    requires Run(cs, es) && FairHelpers(cs, es, o) && SettledAt(cs(n), o)
    ensures exists m: nat :: m >= n && OverFrom(cs, o, m)
  {
    var m := ComesToRest(cs, es, o, n);
    forall k: nat | k >= m ensures Over(cs(k), o) {
      RestsOn(cs, es, o, m, k);
      RunGood(cs, es, k);
    }
    assert OverFrom(cs, o, m);
  }

  // -------------------------------------------------------- fair runs exist

  lemma {:induction false} Bounded(s: set<nat>) returns (b: nat)
    ensures forall x :: x in s ==> x < b
    decreases |s|
  {
    if s == {} {
      b := 0;
    } else {
      var x :| x in s;
      var rest := Bounded(s - {x});
      b := if rest <= x then x + 1 else rest;
      assert forall y :: y in s ==> y == x || y in s - {x};
    }
  }

  lemma FreshExists(c: Conn)
    ensures exists o: nat :: o !in c.ops
  {
    var b := Bounded(c.ops.Keys);
    assert b !in c.ops.Keys;
  }

  ghost function Fresh(c: Conn): (o: nat)
    ensures o !in c.ops
  {
    FreshExists(c);
    var o: nat :| o !in c.ops;
    o
  }

  /** Whoever owes o something moves; then other operations are created. */
  ghost function Serve(c: Conn, o: nat): Event {
    if o in c.ops && !Quiet(c.ops[o]) then OpStep(o, Help(c.ops[o])) else Create(Fresh(c), false, [])
  }

  ghost function Served(c: Conn, o: nat, n: nat): Conn {
    if n == 0 then c
    else
      var before := Served(c, o, n - 1);
      match Apply(before, Serve(before, o))
      case None => before
      case Some(after) => after
  }

  lemma QuietNotReady(enabled: bool, op: Op, s: Step)
    requires OpInv(op) && Quiet(op) && Helping(op, s)
    ensures Move(enabled, op, s).None?
  {
    match AgentOf(s)
    case ByDevice => DeviceRests(op, s);
    case ByWork => WorkRests(enabled, op, s);
    case ByReceiver => NoCopier(op, s);
    case _ =>
  }

  lemma NoCopier(op: Op, s: Step)
    requires CopyRank(op.receivers) == 0 && (s.ReceiverCopy? || s.ReceiverQueue?)
    ensures ReceiverMove(op, s).None?
  {
    if s.i < |op.receivers| {
      CopyRankUpdate(op.receivers, s.i, Putting);
    }
  }

  lemma ServeMoves(c: Conn, o: nat)
    requires ConnInv(c) && o in c.ops
    ensures Apply(c, Serve(c, o)).Some? && o in Apply(c, Serve(c, o)).value.ops
    ensures HelpReady(c, o) ==> Helped(c, Serve(c, o), o)
  {
    var op := c.ops[o];
    if Quiet(op) {
      forall s | Helping(op, s) ensures Move(c.state.Enabled?, op, s).None? {
        QuietNotReady(c.state.Enabled?, op, s);
      }
    } else {
      UnquietHasHelper(c.state.Enabled?, op);
      CanStep(c, o, Help(op));
    }
  }

  lemma {:induction false} ServedGood(c: Conn, o: nat, n: nat)
    requires Reachable(c) && o in c.ops
    ensures ConnInv(Served(c, o, n)) && o in Served(c, o, n).ops
    ensures Apply(Served(c, o, n), Serve(Served(c, o, n), o)) == Some(Served(c, o, n + 1))
    ensures HelpReady(Served(c, o, n), o) ==> Helped(Served(c, o, n), Serve(Served(c, o, n), o), o)
  {
    if n == 0 {
      ReachableInv(c);
    } else {
      ServedGood(c, o, n - 1);
      ServeKeeps(Served(c, o, n - 1), Served(c, o, n), o);
    }
    ServeMoves(Served(c, o, n), o);
    ServedNext(c, o, n);
  }

  lemma ServeKeeps(c: Conn, c': Conn, o: nat)
    requires ConnInv(c) && o in c.ops && Apply(c, Serve(c, o)) == Some(c')
    ensures ConnInv(c') && o in c'.ops
  {
    ApplyKeeps(c, Serve(c, o));
    ServeMoves(c, o);
  }

  lemma ServedNext(c: Conn, o: nat, n: nat)
    requires Apply(Served(c, o, n), Serve(Served(c, o, n), o)).Some?
    ensures Apply(Served(c, o, n), Serve(Served(c, o, n), o)) == Some(Served(c, o, n + 1))
  {
  }

  /** From every reachable state a run that is fair to the operation exists. */
  lemma FairRunExists(c: Conn, o: nat) returns (cs: nat -> Conn, es: nat -> Event)
    requires Reachable(c) && o in c.ops
    ensures Run(cs, es) && cs(0) == c && FairHelpers(cs, es, o)
  {
    cs := (n: nat) => Served(c, o, n);
    es := (n: nat) => Serve(Served(c, o, n), o);
    forall n: nat ensures StepAt(cs, es, n) && HelpersActFrom(cs, es, o, n) {
      ServedGood(c, o, n);
      assert HelpersAct(cs, es, o, n);
    }
  }

  // -------------------------------------------------------------- cancellers

  /** While others move, a canceller stays where it is or wakes up. */
  lemma SlotNext(c: Conn, e: Event, o: nat, who: Who)
    requires ConnInv(c) && o in c.ops && !CancelOver(c.ops[o], who) && Apply(c, e).Some?
    requires e != OpStep(o, CancelStep(who))
    ensures o in Apply(c, e).value.ops && SlotKept(c.ops[o], Apply(c, e).value.ops[o], who)
  {
    var op := c.ops[o];
    if e.OpStep? && e.o == o {
      StepResult(c, o, e.s);
      OwnSteps(c.state.Enabled?, op, e.s, who);
      SlotStays(c.state.Enabled?, op, e.s, who);
    } else {
      OtherEvents(c, e, o, who);
    }
  }

  lemma OwnSteps(enabled: bool, op: Op, s: Step, who: Who)
    requires OpInv(op) && !CancelOver(op, who) && Move(enabled, op, s).Some? && !ConnectionStep(s)
    requires s != CancelStep(who)
    ensures !OfCanceller(s, who)
  {
    if s.GiveUp? {
      assert CreatorMove(enabled, op, s).Some?;
    }
  }

  lemma OtherEvents(c: Conn, e: Event, o: nat, who: Who)
    requires ConnInv(c) && o in c.ops && !CancelOver(c.ops[o], who) && Apply(c, e).Some? && !(e.OpStep? && e.o == o)
    ensures o in Apply(c, e).value.ops && Slot(Apply(c, e).value.ops[o], who) == Slot(c.ops[o], who)
  {
    match e
    case TakeId(p) => TakeIdSlot(c, p, o, who);
    case Receive(data, p) => ReceiveSlot(c, data, p, o, who);
    case OpStep(p, s) => OtherOp(c, p, s, o);
    case Pick => HoldSlot(c, e, o, who);
    case Drop => HoldSlot(c, e, o, who);
    case _ =>
  }

  lemma OtherOp(c: Conn, p: nat, s: Step, o: nat)
    requires o in c.ops && p != o && Apply(c, OpStep(p, s)).Some?
    ensures o in Apply(c, OpStep(p, s)).value.ops && Apply(c, OpStep(p, s)).value.ops[o] == c.ops[o]
  {
  }

  lemma TakeIdSlot(c: Conn, p: nat, o: nat, who: Who)
    requires o in c.ops && Apply(c, TakeId(p)).Some?
    ensures o in Apply(c, TakeId(p)).value.ops
    ensures Slot(Apply(c, TakeId(p)).value.ops[o], who) == Slot(c.ops[o], who)
  {
    TakeIdResult(c, p);
    AssignIdSlot(c.state.Enabled?, c.ops[p], NextCycle(c), who);
  }

  lemma AssignIdSlot(enabled: bool, op: Op, cycle: int, who: Who)
    requires Move(enabled, op, AssignId(cycle)).Some?
    ensures Slot(Move(enabled, op, AssignId(cycle)).value.op, who) == Slot(op, who)
  {
  }

  lemma HoldSlot(c: Conn, e: Event, o: nat, who: Who)
    requires ConnInv(c) && o in c.ops && !CancelOver(c.ops[o], who) && Apply(c, e).Some? && (e.Pick? || e.Drop?)
    ensures o in Apply(c, e).value.ops && Slot(Apply(c, e).value.ops[o], who) == Slot(c.ops[o], who)
  {
    if e.Pick? {
      PickResult(c);
      HoldsOther(c.ops[c.list[|c.list| - 1]], CancelBegin(ESHUTDOWN), who);
    } else {
      DropResult(c);
      HoldsOther(c.ops[c.loop.op], CancelEnd, who);
    }
  }

  lemma HoldsOther(op: Op, s: Step, who: Who)
    requires HoldMove(op, s).Some? && (s.CancelBegin? || s.CancelEnd?)
    ensures !CancelOver(op, who) ==> Slot(HoldMove(op, s).value.op, who) == Slot(op, who)
  {
  }

  lemma ReceiveSlot(c: Conn, data: seq<byte>, p: nat, o: nat, who: Who)
    requires ConnInv(c) && o in c.ops && Apply(c, Receive(data, p)).Some?
    ensures o in Apply(c, Receive(data, p)).value.ops
    ensures Slot(Apply(c, Receive(data, p)).value.ops[o], who) == Slot(c.ops[o], who)
  {
    if IsResponse(data) {
      FindOutgoingFinds(c.ops, c.list, MessageId(data));
      match FindOutgoing(c.ops, c.list, MessageId(data))
      case None =>
      case Some(q) => LookupSlot(c.state.Enabled?, c.ops[q], data, who);
    }
  }

  lemma LookupSlot(enabled: bool, op: Op, data: seq<byte>, who: Who)
    ensures (Move(enabled, op, Lookup(data)).Some? ==>
             Slot(Move(enabled, op, Lookup(data)).value.op, who) == Slot(op, who))
  {
  }
}
