/** From one operation to every reachable state: an invariant of single steps holds in all runs. */
module EngineLift {
  import opened Common
  import opened Errno
  import opened Engine
  import opened EngineInvariant
  import opened EngineRuns

  /** A step as it can occur in a run; dying says that the connection is being destroyed. */
  ghost predicate StepOk(dying: bool, enabled: bool, op: Op, s: Step) {
    && OpInv(op) && Move(enabled, op, s).Some?
    && !(dying && enabled)
    && (op.teardown.Some? ==> dying)
    && (Left(op.teardown) ==> op.active == 0)
    && (s.CancelBegin? || s.Lookup? ==> op.active > 0)
    && (s.CancelBegin? ==> dying)
  }

  // ------------------------------------------------------ one event, one step

  /** op' comes from op by one step that can occur in a run. */
  ghost predicate StepsTo(dying: bool, enabled: bool, op: Op, op': Op) {
    exists s :: StepOk(dying, enabled, op, s) && op' == Move(enabled, op, s).value.op
  }

  /** The event that makes step s of operation p happen. */
  predicate By(e: Event, p: nat, s: Step) {
    || (e == OpStep(p, s) && !ConnectionStep(s))
    || (e == TakeId(p) && s.AssignId?)
    || (e.Receive? && |e.data| >= HEADER && IsResponse(e.data) && s == Lookup(e.data))
    || (e.Pick? && s == CancelBegin(ESHUTDOWN))
    || (e.Drop? && s.CancelEnd?)
  }

  /** op' comes from op by the one step that event e is for operation p. */
  ghost predicate StepsBy(e: Event, p: nat, dying: bool, enabled: bool, op: Op, op': Op) {
    exists s :: StepOk(dying, enabled, op, s) && By(e, p, s) && op' == Move(enabled, op, s).value.op
  }

  lemma OnOpSteps(c: Conn, o: nat, s: Step, p: nat, e: Event)
    requires OnOp(c, o, s).Some? && StepOk(c.state.Destroying?, c.state.Enabled?, c.ops[o], s) && p in c.ops
    requires By(e, o, s)
    ensures var c' := OnOp(c, o, s).value;
      && p in c'.ops
      && (c'.ops[p] == c.ops[p] || StepsBy(e, p, c.state.Destroying?, c.state.Enabled?, c.ops[p], c'.ops[p]))
  {
  }

  lemma ReceiveSteps(c: Conn, data: seq<byte>, o: nat, p: nat)
    requires ConnInv(c) && Apply(c, Receive(data, o)).Some? && p in c.ops
    ensures var c' := Apply(c, Receive(data, o)).value;
      && p in c'.ops
      && (|| c'.ops[p] == c.ops[p]
          || StepsBy(Receive(data, o), p, c.state.Destroying?, c.state.Enabled?, c.ops[p], c'.ops[p]))
  {
    if IsResponse(data) {
      FindOutgoingFinds(c.ops, c.list, MessageId(data));
      match FindOutgoing(c.ops, c.list, MessageId(data))
      case None =>
      case Some(q) => OnOpSteps(c.(rx := c.rx + [data]), q, Lookup(data), p, Receive(data, o));
    }
  }

  lemma HoldSteps(c: Conn, e: Event, p: nat)
    requires ConnInv(c) && Apply(c, e).Some? && (e.Pick? || e.Drop?) && p in c.ops
    ensures var c' := Apply(c, e).value;
      && p in c'.ops
      && (c'.ops[p] == c.ops[p] || StepsBy(e, p, c.state.Destroying?, c.state.Enabled?, c.ops[p], c'.ops[p]))
  {
    if e.Pick? {
      PickResult(c);
      var o := c.list[|c.list| - 1];
      HoldIsStep(c.state.Enabled?, c.ops[o], CancelBegin(ESHUTDOWN), e, o);
    } else {
      DropResult(c);
      HoldIsStep(c.state.Enabled?, c.ops[c.loop.op], CancelEnd, e, c.loop.op);
    }
  }

  lemma HoldIsStep(enabled: bool, op: Op, s: Step, e: Event, o: nat)
    requires OpInv(op) && HoldMove(op, s).Some? && !enabled && (Left(op.teardown) ==> op.active == 0)
    requires (s.CancelBegin? && op.active > 0) || s.CancelEnd?
    requires By(e, o, s)
    ensures StepsBy(e, o, true, enabled, op, HoldMove(op, s).value.op)
  {
    assert StepOk(true, enabled, op, s);
  }

  /** An event changes an operation by at most one step, and it is the step that the event names. */
  lemma ApplyStepsBy(c: Conn, e: Event, p: nat)
    requires ConnInv(c) && Apply(c, e).Some? && p in c.ops
    ensures var c' := Apply(c, e).value;
      && p in c'.ops
      && (c'.ops[p] == c.ops[p] || StepsBy(e, p, c.state.Destroying?, c.state.Enabled?, c.ops[p], c'.ops[p]))
  {
    match e
    case OpStep(o, s) => OnOpSteps(c, o, s, p, e);
    case TakeId(o) =>
      TakeIdResult(c, o);
      OnOpSteps(c.(opCycle := NextCycle(c)), o, AssignId(NextCycle(c)), p, e);
    case Receive(data, o) => ReceiveSteps(c, data, o, p);
    case Pick => HoldSteps(c, e, p);
    case Drop => HoldSteps(c, e, p);
    case _ =>
  }

  lemma ApplySteps(c: Conn, e: Event, p: nat)
    requires ConnInv(c) && Apply(c, e).Some? && p in c.ops
    ensures var c' := Apply(c, e).value;
      && p in c'.ops
      && (c'.ops[p] == c.ops[p] || StepsTo(c.state.Destroying?, c.state.Enabled?, c.ops[p], c'.ops[p]))
  {
    ApplyStepsBy(c, e, p);
  }

  /** The event that creates operation p as op. */
  ghost predicate CreatedBy(e: Event, p: nat, op: Op) {
    || (e.Create? && e.o == p && op == Outgoing(e.sync, e.user))
    || (e.Receive? && e.o == p && |e.data| >= HEADER && !IsResponse(e.data) && op == Incoming(e.data))
  }

  /** An operation that was not there before the event is the one that the event creates. */
  lemma ApplyCreates(c: Conn, e: Event, p: nat)
    requires ConnInv(c) && Apply(c, e).Some? && p in Apply(c, e).value.ops && p !in c.ops
    ensures CreatedBy(e, p, Apply(c, e).value.ops[p])
  {
    match e
    case Create(_, _, _) =>
    case Receive(data, o) => ReceiveCreates(c, data, o, p);
    case OpStep(_, _) =>
    case TakeId(_) =>
    case _ =>
  }

  lemma ReceiveCreates(c: Conn, data: seq<byte>, o: nat, p: nat)
    requires ConnInv(c) && Apply(c, Receive(data, o)).Some? && p in Apply(c, Receive(data, o)).value.ops && p !in c.ops
    ensures |data| >= HEADER && !IsResponse(data) && o == p
    ensures Apply(c, Receive(data, o)).value.ops[p] == Incoming(data)
  {
  }

  // ------------------------------------------------------------- invariants

  /** P holds of new operations, survives the start of teardown and is kept by every step. */
  ghost predicate Inductive(P: (bool, Op) -> bool) {
    && (forall op :: P(false, op) ==> P(true, op))
    && (forall sync, user :: P(false, Outgoing(sync, user)))
    && (forall data: seq<byte> :: |data| >= HEADER ==> P(false, Incoming(data)))
    && (forall dying, enabled, op, s :: StepOk(dying, enabled, op, s) && P(dying, op)
          ==> P(dying, Move(enabled, op, s).value.op))
  }

  ghost predicate All(P: (bool, Op) -> bool, c: Conn) {
    forall o :: o in c.ops ==> P(c.state.Destroying?, c.ops[o])
  }

  lemma ApplyAll(P: (bool, Op) -> bool, c: Conn, e: Event)
    requires Inductive(P) && ConnInv(c) && All(P, c) && Apply(c, e).Some?
    ensures All(P, Apply(c, e).value)
  {
    var c' := Apply(c, e).value;
    forall o | o in c'.ops ensures P(c'.state.Destroying?, c'.ops[o]) {
      if o in c.ops {
        ApplySteps(c, e, o);
      } else {
        ApplyCreates(c, e, o);
      }
      StaysDying(c, e);
    }
  }

  lemma StaysDying(c: Conn, e: Event)
    requires ConnInv(c) && Apply(c, e).Some?
    ensures c.state.Destroying? ==> Apply(c, e).value.state.Destroying?
  {
  }

  lemma {:induction false} ExecAll(P: (bool, Op) -> bool, c: Conn, es: seq<Event>)
    requires Inductive(P) && ConnInv(c) && All(P, c) && Exec(c, es).Some?
    ensures All(P, Exec(c, es).value)
    decreases |es|
  {
    if es != [] {
      ApplyAll(P, c, es[0]);
      ApplyKeeps(c, es[0]);
      ExecAll(P, Apply(c, es[0]).value, es[1..]);
    }
  }

  /** An inductive property holds of every operation in every reachable state. */
  lemma ReachableAll(P: (bool, Op) -> bool, c: Conn)
    requires Inductive(P) && Reachable(c)
    ensures All(P, c)
  {
    var es :| Exec(NEW_CONN, es) == Some(c);
    ExecAll(P, NEW_CONN, es);
  }
}
