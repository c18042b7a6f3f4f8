/** What the events of a run say about each operation. */
module EngineStory {
  import opened Common
  import opened Engine
  import opened EngineRuns
  import opened EngineLift

  // ------------------------------------------------------------ stories in general

  /** Nothing in the run so far has created operation o or moved it. */
  predicate Unmentioned(es: seq<Event>, o: nat) {
    forall i :: 0 <= i < |es| ==>
      && !(es[i].OpStep? && es[i].o == o)
      && !(es[i].Create? && es[i].o == o)
      && !(es[i].Receive? && es[i].o == o && |es[i].data| >= HEADER && !IsResponse(es[i].data))
  }

  /** P relates an operation to the events so far; it holds when the operation is created, and each event keeps it. */
  ghost predicate Tells(P: (seq<Event>, nat, Op) -> bool) {
    && (forall es: seq<Event>, e: Event, o: nat, op: Op ::
          Unmentioned(es, o) && CreatedBy(e, o, op) ==> P(es + [e], o, op))
    && (forall es: seq<Event>, e: Event, o: nat, op: Op :: P(es, o, op) && Apart(e, o) ==> P(es + [e], o, op))
    && (forall es: seq<Event>, e: Event, o: nat, dying: bool, enabled: bool, op: Op, s: Step ::
          P(es, o, op) && Takes(es, e, o, dying, enabled, op, s)
          ==> P(es + [e], o, Move(enabled, op, s).value.op))
  }

  /** The event would create o. */
  predicate Makes(e: Event, o: nat) {
    || (e.Create? && e.o == o)
    || (e.Receive? && e.o == o && |e.data| >= HEADER && !IsResponse(e.data))
  }

  /** The event neither creates o nor is one of its own steps. */
  predicate Apart(e: Event, o: nat) {
    !(e.OpStep? && e.o == o) && !Makes(e, o)
  }

  /** Event e, after es, is step s of operation o. */
  ghost predicate Takes(es: seq<Event>, e: Event, o: nat, dying: bool, enabled: bool, op: Op, s: Step) {
    && StepOk(dying, enabled, op, s) && By(e, o, s) && !Makes(e, o)
    && (dying ==> StartTeardown in es)
  }

  lemma {:induction false} ExecSnoc(c: Conn, es: seq<Event>, e: Event)
    requires Exec(c, es + [e]).Some?
    ensures Exec(c, es).Some? && Apply(Exec(c, es).value, e) == Exec(c, es + [e])
    decreases |es|
  {
    if es == [] {
      assert es + [e] == [e];
      ExecFirst(c, [e]);
    } else {
      ExecFirst(c, es + [e]);
      assert (es + [e])[1..] == es[1..] + [e];
      ExecSnoc(Apply(c, es[0]).value, es[1..], e);
      assert es == [es[0]] + es[1..];
      ExecCons(c, es[0], es[1..]);
    }
  }

  /** The events so far account for the state of the connection and for who exists. */
  ghost predicate Accounted(es: seq<Event>, c: Conn) {
    && ConnInv(c)
    && (c.state.Destroying? ==> StartTeardown in es)
    && (forall o: nat :: o !in c.ops ==> Unmentioned(es, o))
  }

  lemma {:induction false} RunAccounted(es: seq<Event>, c: Conn)
    requires Exec(NEW_CONN, es) == Some(c)
    ensures Accounted(es, c)
    decreases |es|
  {
    if es != [] {
      var pre, e := es[..|es| - 1], es[|es| - 1];
      assert es == pre + [e];
      ExecSnoc(NEW_CONN, pre, e);
      var c0 := Exec(NEW_CONN, pre).value;
      RunAccounted(pre, c0);
      NextAccounted(pre, c0, e, c);
    }
  }

  lemma NextAccounted(pre: seq<Event>, c0: Conn, e: Event, c: Conn)
    requires Accounted(pre, c0) && Apply(c0, e) == Some(c)
    ensures Accounted(pre + [e], c)
  {
    ApplyKeeps(c0, e);
    DyingBy(c0, e);
    forall o: nat | o !in c.ops ensures Unmentioned(pre + [e], o) {
      StillUnmentioned(c0, e, o);
    }
  }

  lemma DyingBy(c: Conn, e: Event)
    requires ConnInv(c) && Apply(c, e).Some?
    ensures Apply(c, e).value.state.Destroying? ==> c.state.Destroying? || e.StartTeardown?
  {
  }

  lemma StillUnmentioned(c: Conn, e: Event, o: nat)
    requires ConnInv(c) && Apply(c, e).Some? && o !in Apply(c, e).value.ops
    ensures o !in c.ops && !(e.OpStep? && e.o == o) && !Makes(e, o)
  {
    if o in c.ops {
      ApplySteps(c, e, o);
    }
  }

  lemma NoRemake(c: Conn, e: Event, o: nat)
    requires ConnInv(c) && o in c.ops && Apply(c, e).Some?
    ensures !Makes(e, o)
  {
  }

  /** A story that every event keeps true is true of every operation in every run. */
  lemma {:induction false} RunTells(P: (seq<Event>, nat, Op) -> bool, es: seq<Event>, c: Conn, o: nat)
    requires Tells(P) && Exec(NEW_CONN, es) == Some(c) && o in c.ops
    ensures P(es, o, c.ops[o])
    decreases |es|
  {
    if es != [] {
      var pre, e := es[..|es| - 1], es[|es| - 1];
      assert es == pre + [e];
      ExecSnoc(NEW_CONN, pre, e);
      var c0 := Exec(NEW_CONN, pre).value;
      RunAccounted(pre, c0);
      if o in c0.ops {
        RunTells(P, pre, c0, o);
        NextTells(P, pre, c0, e, c, o);
      } else {
        ApplyCreates(c0, e, o);
      }
    }
  }

  lemma NextTells(P: (seq<Event>, nat, Op) -> bool, pre: seq<Event>, c0: Conn, e: Event, c: Conn, o: nat)
    requires Tells(P) && Accounted(pre, c0) && Apply(c0, e) == Some(c) && o in c0.ops && P(pre, o, c0.ops[o])
    ensures o in c.ops && P(pre + [e], o, c.ops[o])
  {
    var op := c0.ops[o];
    NoRemake(c0, e, o);
    ApplyStepsBy(c0, e, o);
    if StepsBy(e, o, c0.state.Destroying?, c0.state.Enabled?, op, c.ops[o]) {
      var s :| StepOk(c0.state.Destroying?, c0.state.Enabled?, op, s) && By(e, o, s)
        && c.ops[o] == Move(c0.state.Enabled?, op, s).value.op;
      assert Takes(pre, e, o, c0.state.Destroying?, c0.state.Enabled?, op, s);
    } else {
      Untouched(c0, e, c, o);
    }
  }

  /** An event that is no step of o, yet an OpStep on it, does not exist. */
  lemma Untouched(c0: Conn, e: Event, c: Conn, o: nat)
    requires ConnInv(c0) && Apply(c0, e) == Some(c) && o in c0.ops && o in c.ops
    requires !StepsBy(e, o, c0.state.Destroying?, c0.state.Enabled?, c0.ops[o], c.ops[o])
    ensures !(e.OpStep? && e.o == o)
  {
    if e.OpStep? && e.o == o {
      OwnStep(c0, e.s, c, o);
    }
  }

  lemma OwnStep(c0: Conn, s: Step, c: Conn, o: nat)
    requires ConnInv(c0) && Apply(c0, OpStep(o, s)) == Some(c) && o in c0.ops
    ensures o in c.ops && StepsBy(OpStep(o, s), o, c0.state.Destroying?, c0.state.Enabled?, c0.ops[o], c.ops[o])
  {
    assert StepOk(c0.state.Destroying?, c0.state.Enabled?, c0.ops[o], s);
  }
}
