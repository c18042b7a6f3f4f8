/** Safety of whole runs: one winner, write-once results, exact counts, orderly teardown. */
module EngineSafety {
  import opened Common
  import opened Errno
  import opened Engine
  import opened EngineInvariant
  import opened EngineRuns
  import opened EngineLift

  // ------------------------------------------------------------------ counts

  /**
   In every reachable state: at most one racing event has recorded a result, the work has been
   queued at most once and has run at most once, a callback has run only on a final result, and
   whoever won either has queued the work or is still about to.
   */
  lemma OneWinner(c: Conn, o: nat)
    requires Reachable(c) && o in c.ops
    ensures var op := c.ops[o];
      && op.log.wins <= 1 && op.log.queueCalls <= 1 && op.log.runs <= op.log.queueCalls
      && (op.log.wins == 1 <==> Final(op.errno))
      && (!op.cfg.incoming && op.log.runs == 1 ==> Final(op.errno) && NoneCopying(op.receivers))
      && (!op.cfg.incoming && op.accepted ==> op.log.queueCalls + Debts(op) == op.log.wins)
  {
    ReachableInv(c);
    var op := c.ops[o];
    if !op.cfg.incoming && op.log.runs == 1 {
      NoDebtIsCopied(op);
    }
  }

  function Occurrences(list: seq<nat>, o: nat): nat {
    if list == [] then 0 else Bit(list[0] == o) + Occurrences(list[1..], o)
  }

  lemma {:induction false} OccurrencesOf(list: seq<nat>, o: nat)
    requires NoDuplicates(list)
    ensures Occurrences(list, o) == Bit(o in list)
  {
    if list != [] {
      OccurrencesOf(list[1..], o);
      assert list == [list[0]] + list[1..];
    }
  }

  /**
   In every reachable state an operation is on its connection's list exactly once if it is active
   and not at all otherwise; the active count is the number of work items and responses under way;
   the reference count is the number of holders; and it is freed exactly when no holder is left.
   */
  lemma ExactCounts(c: Conn, o: nat)
    requires Reachable(c) && o in c.ops
    ensures var op := c.ops[o];
      && Occurrences(c.list, o) == Bit(op.active > 0)
      && 0 <= op.active <= (if op.cfg.incoming then 2 else 1)
      && op.active == Actives(op)
      && op.kref == Refs(op)
      && op.log.frees == Bit(op.kref == 0)
  {
    ReachableInv(c);
    OccurrencesOf(c.list, o);
  }

  /** A sleeping canceller always sleeps on an operation that is still active, and is counted. */
  lemma SleeperIsCounted(c: Conn, o: nat, who: Who)
    requires Reachable(c) && o in c.ops && Sleeps(Slot(c.ops[o], who))
    ensures c.ops[o].active > 0 && c.ops[o].waiters > 0 && o in c.list
  {
    ReachableInv(c);
  }

  /** A canceller that is killing the request of an outgoing operation is alone: no other canceller is, no
      response and no send error has won, and the work has not been queued, so nobody has done it before. */
  lemma OneKiller(c: Conn, o: nat, who: Who)
    requires Reachable(c) && o in c.ops && !c.ops[o].cfg.incoming && Owes(Slot(c.ops[o], who))
    ensures var op := c.ops[o];
      && !Owes(Slot(op, if who.Sync? then Teardown else Sync))
      && op.log.queueCalls == 0 && Owing(op.receivers) == 0 && !op.request.ReportWon?
  {
    ReachableInv(c);
  }

  // ------------------------------------------------------------- write-once

  /** What no event ever undoes. */
  predicate Later(op: Op, op': Op) {
    && op'.cfg == op.cfg
    && (Final(op.errno) ==> op'.errno == op.errno)
  }

  lemma ApplyLater(c: Conn, e: Event, p: nat)
    requires ConnInv(c) && Apply(c, e).Some? && p in c.ops
    ensures p in Apply(c, e).value.ops && Later(c.ops[p], Apply(c, e).value.ops[p])
  {
    ApplySteps(c, e, p);
    var op, op' := c.ops[p], Apply(c, e).value.ops[p];
    if op' != op {
      var s :| StepOk(c.state.Destroying?, c.state.Enabled?, op, s) && op' == Move(c.state.Enabled?, op, s).value.op;
      InvHasNoReservedResult(op);
      MoveFrame(c.state.Enabled?, op, s);
    }
  }

  /** The first final result stays, whatever happens afterwards. */
  lemma {:induction false} ResultNeverChanges(c: Conn, es: seq<Event>, o: nat)
    requires ConnInv(c) && Exec(c, es).Some? && o in c.ops
    ensures o in Exec(c, es).value.ops
    ensures Later(c.ops[o], Exec(c, es).value.ops[o])
    decreases |es|
  {
    if es != [] {
      var c' := Apply(c, es[0]).value;
      ApplyLater(c, es[0], o);
      ApplyKeeps(c, es[0]);
      ResultNeverChanges(c', es[1..], o);
    }
  }

  predicate FinalAt(c: Conn, o: nat) {
    o in c.ops && Final(c.ops[o].errno)
  }

  /** The events of a run that turn o's result from open to final. */
  function Decisions(c: Conn, es: seq<Event>, o: nat): nat
    decreases |es|
  {
    if es == [] || Apply(c, es[0]).None? then 0
    else
      var c' := Apply(c, es[0]).value;
      Bit(!FinalAt(c, o) && FinalAt(c', o)) + Decisions(c', es[1..], o)
  }

  /** Over a whole run exactly one event decides an operation that ends with a final result. */
  lemma {:induction false} OneDecision(c: Conn, es: seq<Event>, o: nat)
    requires ConnInv(c) && Exec(c, es).Some?
    ensures Decisions(c, es, o) + Bit(FinalAt(c, o)) == Bit(FinalAt(Exec(c, es).value, o))
    decreases |es|
  {
    if es != [] {
      ApplyKeeps(c, es[0]);
      if o in c.ops {
        ApplyLater(c, es[0], o);
      }
      OneDecision(Apply(c, es[0]).value, es[1..], o);
    }
  }

  /** From the start of the connection: one deciding event if the result is final, else none. */
  lemma OneDecisionPerRun(es: seq<Event>, o: nat)
    requires Exec(NEW_CONN, es).Some?
    ensures Decisions(NEW_CONN, es, o) == Bit(FinalAt(Exec(NEW_CONN, es).value, o))
  {
    OneDecision(NEW_CONN, es, o);
  }

  // ---------------------------------------------------------------- teardown

  /** Progress of the list once the connection is being destroyed. */
  ghost predicate Shrunk(c: Conn, c': Conn) {
    && c'.state.Destroying?
    && |c'.list| <= |c.list|
    && (forall o :: o in c'.list ==> o in c.list)
  }

  lemma OnOpShrinks(c: Conn, o: nat, s: Step)
    requires ConnInv(c) && c.state.Destroying? && OnOp(c, o, s).Some?
    requires LinksMatch(c.ops[o], Move(false, c.ops[o], s).value)
    ensures Shrunk(c, OnOp(c, o, s).value)
  {
    InvHasNoReservedResult(c.ops[o]);
    MoveFrame(false, c.ops[o], s);
    var e := Move(false, c.ops[o], s).value;
    if e.links.Remove? {
      WithoutFacts(c.list, o);
    }
  }

  lemma LocalShrinks(c: Conn, o: nat, s: Step)
    requires ConnInv(c) && c.state.Destroying? && OnOp(c, o, s).Some?
    requires s.CancelBegin? || s.Lookup? ==> c.ops[o].active > 0
    ensures Shrunk(c, OnOp(c, o, s).value)
  {
    MoveKeeps(false, c.ops[o], s);
    OnOpShrinks(c, o, s);
  }

  lemma ReceiveShrinks(c: Conn, data: seq<byte>, o: nat)
    requires ConnInv(c) && c.state.Destroying? && Apply(c, Receive(data, o)).Some?
    ensures Shrunk(c, Apply(c, Receive(data, o)).value)
  {
    if IsResponse(data) {
      FindOutgoingFinds(c.ops, c.list, MessageId(data));
      match FindOutgoing(c.ops, c.list, MessageId(data))
      case None =>
      case Some(q) =>
        ReceivedKeeps(c, data);
        LocalShrinks(c.(rx := c.rx + [data]), q, Lookup(data));
    }
  }

  lemma ApplyShrinks(c: Conn, e: Event)
    requires ConnInv(c) && c.state.Destroying? && Apply(c, e).Some?
    ensures Shrunk(c, Apply(c, e).value)
  {
    match e
    case OpStep(o, s) => LocalShrinks(c, o, s);
    case TakeId(o) =>
      TakeIdResult(c, o);
      CycleKeeps(c, NextCycle(c));
      LocalShrinks(c.(opCycle := NextCycle(c)), o, AssignId(NextCycle(c)));
    case Receive(data, o) => ReceiveShrinks(c, data, o);
    case Pick => PickResult(c);
    case Drop => DropResult(c);
    case _ =>
  }

  /** Once a connection is DESTROYING it stays so, no operation becomes active again, and its
      operation list only shrinks. */
  lemma {:induction false} DestroyingOnlyShrinks(c: Conn, es: seq<Event>)
    requires ConnInv(c) && c.state.Destroying? && Exec(c, es).Some?
    ensures Shrunk(c, Exec(c, es).value)
    decreases |es|
  {
    if es != [] {
      ApplyShrinks(c, es[0]);
      ApplyKeeps(c, es[0]);
      DestroyingOnlyShrinks(Apply(c, es[0]).value, es[1..]);
    }
  }

  lemma {:induction false} NoDuplicatesSubset(a: seq<nat>, b: seq<nat>, o: nat)
    requires NoDuplicates(a) && NoDuplicates(b)
    requires forall p :: p in a ==> p in b && p != o
    requires o in b
    ensures |a| < |b|
  {
    WithoutFacts(b, o);
    Pigeonhole(a, Without(b, o));
  }

  lemma {:induction false} Pigeonhole(a: seq<nat>, b: seq<nat>)
    requires NoDuplicates(a) && NoDuplicates(b)
    requires forall p :: p in a ==> p in b
    ensures |a| <= |b|
  {
    if a != [] {
      WithoutFacts(b, a[0]);
      assert forall p :: p in a[1..] ==> p in a && p != a[0];
      Pigeonhole(a[1..], Without(b, a[0]));
    }
  }

  lemma PickedFromList(c: Conn)
    requires ConnInv(c) && Apply(c, Pick).Some?
    ensures c.list != []
    ensures var c1 := Apply(c, Pick).value;
      ConnInv(c1) && c1.state.Destroying? && c1.list == c.list && c1.loop == Busy(c.list[|c.list| - 1])
  {
    PickResult(c);
    PickKeeps(c);
  }

  /** The loop only lets go of an operation that has left the list. */
  lemma DroppedIsOff(c: Conn)
    requires ConnInv(c) && Apply(c, Drop).Some?
    ensures c.loop.Busy? && c.loop.op !in c.list && Apply(c, Drop).value.list == c.list
  {
    DropResult(c);
    assert Left(c.ops[c.loop.op].teardown);
  }

  /**
   One iteration of the cancel loop, with anything happening in between: from the state in which
   the loop picks an operation to the state in which it drops its reference, the list has become
   strictly shorter.
   */
  lemma IterationShrinks(c: Conn, c1: Conn, es: seq<Event>, c2: Conn)
    requires ConnInv(c) && Apply(c, Pick) == Some(c1)
    requires Exec(c1, es) == Some(c2) && c2.loop == c1.loop && Apply(c2, Drop).Some?
    ensures |Apply(c2, Drop).value.list| < |c.list|
    ensures c.list != [] && c.list[|c.list| - 1] !in Apply(c2, Drop).value.list
  {
    PickedFromList(c);
    ExecKeeps(c1, es);
    DestroyingOnlyShrinks(c1, es);
    DroppedIsOff(c2);
    NoDuplicatesSubset(c2.list, c.list, c2.loop.op);
  }

  /** When the loop has ended the list is empty, and it stays empty. */
  lemma EndedStaysEmpty(c: Conn, es: seq<Event>)
    requires Reachable(c) && c.loop.Ended? && Exec(c, es).Some?
    ensures c.list == [] && Exec(c, es).value.list == []
  {
    ReachableInv(c);
    DestroyingOnlyShrinks(c, es);
  }
}
