/** In every fair run cancellers return, and teardown ends exactly if it never gets stuck. */
module EngineEnding {
  import opened Common
  import opened Errno
  import opened Engine
  import opened EngineInvariant
  import opened EngineRuns
  import opened EngineSafety
  import opened EngineLift
  import opened EngineFault
  import opened EngineProgress
  import opened EngineTeardown
  import opened EngineFair

  // ------------------------------------------------------ a canceller at rest

  lemma IncomingMovesOn(op: Op)
    requires OpInv(op) && Quiet(op) && op.cfg.incoming && !Doomed(op) && !CancelOver(op, Teardown) && op.active == 0
    ensures PhaseMove(op, Teardown).Some?
    ensures PhaseRank(PhaseMove(op, Teardown).value.op.teardown) < PhaseRank(op.teardown)
  {
  }

  /** What a canceller needs in order to move on once an outgoing operation is at rest. */
  predicate Free(op: Op, c: Option<Cancel>) {
    && !op.cfg.incoming && Final(op.errno) && op.active == 0
    && (c.Some? ==>
          && c.value.errno != EINPROGRESS && !c.value.phase.Flushed? && !c.value.phase.Crashed?
          && !c.value.phase.Asleep? && !c.value.phase.Killing? && !c.value.phase.CQueueing?)
  }

  lemma OutgoingIsFree(op: Op)
    requires OpInv(op) && Quiet(op) && !op.cfg.incoming && Final(op.errno) && op.active == 0
    ensures Free(op, op.syncCancel) && Free(op, op.teardown)
  {
  }

  lemma FreeMovesOn(op: Op, who: Who)
    requires Free(op, Slot(op, who)) && !CancelOver(op, who)
    ensures PhaseMove(op, who).Some?
    ensures PhaseRank(Slot(PhaseMove(op, who).value.op, who)) < PhaseRank(Slot(op, who))
  {
  }

  /** Once the operation is at rest, only its cancellers themselves keep them from returning. */
  lemma CancellerMovesOn(op: Op, who: Who)
    requires OpInv(op) && Quiet(op) && Decided(op) && !Doomed(op) && !CancelOver(op, who) && op.active == 0
    ensures PhaseMove(op, who).Some?
    ensures PhaseRank(Slot(PhaseMove(op, who).value.op, who)) < PhaseRank(Slot(op, who))
  {
    if op.cfg.incoming {
      assert who.Teardown?;
      IncomingMovesOn(op);
    } else {
      OutgoingIsFree(op);
      FreeMovesOn(op, who);
    }
  }

  /** o is at rest, and its teardown canceller has not run into a fault. */
  ghost predicate AtRest(c: Conn, o: nat) {
    SettledAt(c, o) && Quiet(c.ops[o]) && c.ops[o].active == 0 && !Doomed(c.ops[o])
  }

  lemma RestCanCancel(c: Conn, o: nat, who: Who)
    requires ConnInv(c) && AtRest(c, o) && !CancelOver(c.ops[o], who)
    ensures CancelReady(c, o, who)
  {
    CancellerMovesOn(c.ops[o], who);
    CancelIsPhase(c.state.Enabled?, c.ops[o], who);
  }

  lemma CancelIsPhase(enabled: bool, op: Op, who: Who)
    requires Slot(op, who).Some?
    ensures Move(enabled, op, CancelStep(who)) == PhaseMove(op, who)
  {
  }

  /** At rest, every event leaves the canceller nearer to its end or where it is. */
  lemma RestPhase(c: Conn, e: Event, o: nat, who: Who)
    requires ConnInv(c) && AtRest(c, o) && !CancelOver(c.ops[o], who) && Apply(c, e).Some?
    ensures o in Apply(c, e).value.ops
    ensures var rank := PhaseRank(Slot(Apply(c, e).value.ops[o], who));
      && rank <= PhaseRank(Slot(c.ops[o], who))
      && (e == OpStep(o, CancelStep(who)) ==> rank < PhaseRank(Slot(c.ops[o], who)))
  {
    if e == OpStep(o, CancelStep(who)) {
      OwnPhase(c, o, who);
    } else {
      SlotNext(c, e, o, who);
    }
  }

  lemma OwnPhase(c: Conn, o: nat, who: Who)
    requires ConnInv(c) && AtRest(c, o) && !CancelOver(c.ops[o], who) && Apply(c, OpStep(o, CancelStep(who))).Some?
    ensures o in Apply(c, OpStep(o, CancelStep(who))).value.ops
    ensures (PhaseRank(Slot(Apply(c, OpStep(o, CancelStep(who))).value.ops[o], who))
             < PhaseRank(Slot(c.ops[o], who)))
  {
    CancellerMovesOn(c.ops[o], who);
    CancelIsPhase(c.state.Enabled?, c.ops[o], who);
    StepResult(c, o, CancelStep(who));
  }

  /** The operation never runs into the fault of a missing response. */
  ghost predicate NeverDoomed(cs: nat -> Conn, o: nat) {
    forall k: nat :: o in cs(k).ops ==> !Doomed(cs(k).ops[o])
  }

  lemma RestAt(cs: nat -> Conn, es: nat -> Event, o: nat, n: nat, m: nat)
    requires Run(cs, es) && NeverDoomed(cs, o) && n <= m && SettledAt(cs(n), o) && Quiet(cs(n).ops[o])
    ensures AtRest(cs(m), o)
  {
    RestsOn(cs, es, o, n, m);
  }

  /** From n to k the canceller ends, or has not gone back. */
  lemma {:induction false} PhaseFalls(cs: nat -> Conn, es: nat -> Event, o: nat, who: Who, n: nat, k: nat)
    returns (j: nat)
    requires Run(cs, es) && NeverDoomed(cs, o) && n <= k && SettledAt(cs(n), o) && Quiet(cs(n).ops[o])
    ensures n <= j <= k && AtRest(cs(j), o)
    ensures (CancelOver(cs(j).ops[o], who)
             || (j == k && PhaseRank(Slot(cs(k).ops[o], who)) <= PhaseRank(Slot(cs(n).ops[o], who))))
    decreases k - n
  {
    RestAt(cs, es, o, n, n);
    if n == k || CancelOver(cs(n).ops[o], who) {
      j := n;
    } else {
      PhaseAt(cs, es, o, who, n);
      RestAt(cs, es, o, n, n + 1);
      j := PhaseFalls(cs, es, o, who, n + 1, k);
    }
  }

  lemma PhaseAt(cs: nat -> Conn, es: nat -> Event, o: nat, who: Who, n: nat)
    requires Run(cs, es) && AtRest(cs(n), o) && !CancelOver(cs(n).ops[o], who)
    ensures o in cs(n + 1).ops && PhaseRank(Slot(cs(n + 1).ops[o], who)) <= PhaseRank(Slot(cs(n).ops[o], who))
  {
    RunStep(cs, es, n);
    RestPhase(cs(n), es(n), o, who);
  }

  /** A fair run takes the canceller one phase further, or to its end. */
  lemma NextPhase(cs: nat -> Conn, es: nat -> Event, o: nat, who: Who, n: nat) returns (m: nat)
    requires Run(cs, es) && CancellerActsFrom(cs, es, o, who, n) && NeverDoomed(cs, o)
    requires SettledAt(cs(n), o) && Quiet(cs(n).ops[o])
    ensures m >= n && AtRest(cs(m), o)
    ensures CancelOver(cs(m).ops[o], who) || PhaseRank(Slot(cs(m).ops[o], who)) < PhaseRank(Slot(cs(n).ops[o], who))
  {
    var k: nat :| k >= n && CancellerActs(cs, es, o, who, k);
    m := PhaseFalls(cs, es, o, who, n, k);
    if !CancelOver(cs(m).ops[o], who) {
      ActedAt(cs, es, o, who, k);
      m := k + 1;
    }
  }

  lemma ActedAt(cs: nat -> Conn, es: nat -> Event, o: nat, who: Who, k: nat)
    requires Run(cs, es) && CancellerActs(cs, es, o, who, k) && NeverDoomed(cs, o)
    requires AtRest(cs(k), o) && !CancelOver(cs(k).ops[o], who)
    ensures AtRest(cs(k + 1), o)
    ensures PhaseRank(Slot(cs(k + 1).ops[o], who)) < PhaseRank(Slot(cs(k).ops[o], who))
  {
    CancelAt(cs, es, o, who, k);
    RestAt(cs, es, o, k, k + 1);
  }

  lemma {:induction false} RestReturns(cs: nat -> Conn, es: nat -> Event, o: nat, who: Who, n: nat) returns (m: nat)
    requires Run(cs, es) && FairCanceller(cs, es, o, who) && NeverDoomed(cs, o)
    requires SettledAt(cs(n), o) && Quiet(cs(n).ops[o])
    ensures m >= n && o in cs(m).ops && CancelOver(cs(m).ops[o], who)
    decreases PhaseRank(Slot(cs(n).ops[o], who))
  {
    assert CancellerActsFrom(cs, es, o, who, n);
    m := NextPhase(cs, es, o, who, n);
    if !CancelOver(cs(m).ops[o], who) {
      m := RestReturns(cs, es, o, who, m);
    }
  }

  lemma CancelAt(cs: nat -> Conn, es: nat -> Event, o: nat, who: Who, k: nat)
    requires Run(cs, es) && CancellerActs(cs, es, o, who, k) && AtRest(cs(k), o) && !CancelOver(cs(k).ops[o], who)
    ensures o in cs(k + 1).ops && PhaseRank(Slot(cs(k + 1).ops[o], who)) < PhaseRank(Slot(cs(k).ops[o], who))
  {
    RunStep(cs, es, k);
    RestCanCancel(cs(k), o, who);
    RestPhase(cs(k), es(k), o, who);
  }

  // ---------------------------------------------------- a canceller that decides

  /** A canceller that has not decided does so in its first step. */
  lemma StartDecides(op: Op, who: Who)
    requires OpInv(op) && !op.cfg.incoming && !CancelOver(op, who) && !Final(op.errno)
    ensures PhaseMove(op, who).Some? && Final(PhaseMove(op, who).value.op.errno)
  {
  }

  lemma DecidesNext(c: Conn, e: Event, o: nat, who: Who)
    requires ConnInv(c) && o in c.ops && !c.ops[o].cfg.incoming && !CancelOver(c.ops[o], who) && !Final(c.ops[o].errno)
    requires Apply(c, e).Some?
    ensures var c' := Apply(c, e).value; o in c'.ops && !c'.ops[o].cfg.incoming
    ensures e == OpStep(o, CancelStep(who)) ==> Final(Apply(c, e).value.ops[o].errno)
    ensures e != OpStep(o, CancelStep(who)) ==> !CancelOver(Apply(c, e).value.ops[o], who)
  {
    ApplyLater(c, e, o);
    if e == OpStep(o, CancelStep(who)) {
      StepResult(c, o, CancelStep(who));
      StartReady(c, o, who);
    } else {
      SlotNext(c, e, o, who);
    }
  }

  lemma StartReady(c: Conn, o: nat, who: Who)
    requires ConnInv(c) && o in c.ops && !c.ops[o].cfg.incoming && !CancelOver(c.ops[o], who) && !Final(c.ops[o].errno)
    ensures CancelReady(c, o, who)
    ensures Final(Move(c.state.Enabled?, c.ops[o], CancelStep(who)).value.op.errno)
  {
    StartDecides(c.ops[o], who);
    CancelIsPhase(c.state.Enabled?, c.ops[o], who);
  }

  /** From n to k the result becomes final, or the canceller is where it was. */
  lemma {:induction false} Undecided(cs: nat -> Conn, es: nat -> Event, o: nat, who: Who, n: nat, k: nat)
    returns (j: nat)
    requires Run(cs, es) && n <= k && o in cs(n).ops && !cs(n).ops[o].cfg.incoming && !CancelOver(cs(n).ops[o], who)
    ensures n <= j <= k && o in cs(j).ops && !cs(j).ops[o].cfg.incoming
    ensures Final(cs(j).ops[o].errno) || (j == k && !CancelOver(cs(j).ops[o], who))
    decreases k - n
  {
    if n == k || Final(cs(n).ops[o].errno) {
      j := n;
    } else {
      UndecidedAt(cs, es, o, who, n);
      if Final(cs(n + 1).ops[o].errno) {
        j := n + 1;
      } else {
        j := Undecided(cs, es, o, who, n + 1, k);
      }
    }
  }

  lemma UndecidedAt(cs: nat -> Conn, es: nat -> Event, o: nat, who: Who, n: nat)
    requires Run(cs, es) && o in cs(n).ops && !cs(n).ops[o].cfg.incoming && !CancelOver(cs(n).ops[o], who)
    requires !Final(cs(n).ops[o].errno)
    ensures o in cs(n + 1).ops && !cs(n + 1).ops[o].cfg.incoming
    ensures Final(cs(n + 1).ops[o].errno) || !CancelOver(cs(n + 1).ops[o], who)
  {
    RunStep(cs, es, n);
    DecidesNext(cs(n), es(n), o, who);
  }

  lemma OutgoingSettles(cs: nat -> Conn, es: nat -> Event, o: nat, who: Who, n: nat) returns (m: nat)
    requires Run(cs, es) && FairCanceller(cs, es, o, who)
    requires o in cs(n).ops && !cs(n).ops[o].cfg.incoming && !CancelOver(cs(n).ops[o], who)
    ensures m >= n && SettledAt(cs(m), o)
  {
    assert CancellerActsFrom(cs, es, o, who, n);
    var k: nat :| k >= n && CancellerActs(cs, es, o, who, k);
    m := Undecided(cs, es, o, who, n, k);
    if !Final(cs(m).ops[o].errno) {
      DecideAt(cs, es, o, who, k);
      m := k + 1;
    }
  }

  lemma DecideAt(cs: nat -> Conn, es: nat -> Event, o: nat, who: Who, k: nat)
    requires Run(cs, es) && CancellerActs(cs, es, o, who, k) && o in cs(k).ops && !cs(k).ops[o].cfg.incoming
    requires !CancelOver(cs(k).ops[o], who) && !Final(cs(k).ops[o].errno)
    ensures SettledAt(cs(k + 1), o)
  {
    RunStep(cs, es, k);
    StartReady(cs(k), o, who);
    DecidesNext(cs(k), es(k), o, who);
  }

  /** In every fair run a canceller ends. */
  lemma CancellerReturns(cs: nat -> Conn, es: nat -> Event, o: nat, who: Who, n: nat) returns (m: nat)
    requires Run(cs, es) && FairHelpers(cs, es, o) && FairCanceller(cs, es, o, who) && NeverDoomed(cs, o)
    requires o in cs(n).ops
    ensures m >= n && o in cs(m).ops && CancelOver(cs(m).ops[o], who)
  {
    RunGood(cs, es, n);
    if CancelOver(cs(n).ops[o], who) {
      m := n;
    } else {
      var settled := n;
      if cs(n).ops[o].cfg.incoming {
        IncomingSettled(cs(n), o, who);
      } else {
        settled := OutgoingSettles(cs, es, o, who, n);
      }
      var rest := ComesToRest(cs, es, o, settled);
      m := RestReturns(cs, es, o, who, rest);
    }
  }

  lemma IncomingSettled(c: Conn, o: nat, who: Who)
    requires ConnInv(c) && o in c.ops && c.ops[o].cfg.incoming && !CancelOver(c.ops[o], who)
    ensures SettledAt(c, o)
  {
    assert OpInv(c.ops[o]);
  }

  /** The synchronous caller of o is not, or no longer, inside gb_operation_cancel. */
  ghost predicate OutOfCancel(c: Conn, o: nat) {
    o in c.ops && !c.ops[o].creator.Cancelling?
  }

  /** In every fair run, in every connection state, a synchronous caller that gives up on a timeout or a signal comes
      back from cancelling its operation. */
  lemma TimeoutReturns(cs: nat -> Conn, es: nat -> Event, o: nat, n: nat)
    requires Run(cs, es) && FairHelpers(cs, es, o) && FairCanceller(cs, es, o, Sync)
    requires o in cs(n).ops && cs(n).ops[o].creator.Cancelling?
    ensures exists m: nat :: m >= n && OutOfCancel(cs(m), o)
  {
    RunGood(cs, es, n);
    SyncIsOutgoing(cs(n).ops[o]);
    forall k: nat | o in cs(k).ops ensures !Doomed(cs(k).ops[o]) {
      SameKind(cs, es, o, n, k);
    }
    var m := CancellerReturns(cs, es, o, Sync, n);
    RunGood(cs, es, m);
    SyncEnded(cs(m).ops[o]);
    assert OutOfCancel(cs(m), o);
  }

  lemma SyncIsOutgoing(op: Op)
    requires OpInv(op) && op.creator.Cancelling?
    ensures !op.cfg.incoming
  {
  }

  lemma SyncEnded(op: Op)
    requires OpInv(op) && CancelOver(op, Sync)
    ensures !op.creator.Cancelling?
  {
  }

  /** An operation that is outgoing at some time is so whenever it exists. */
  lemma {:induction false} SameKind(cs: nat -> Conn, es: nat -> Event, o: nat, n: nat, k: nat)
    requires Run(cs, es) && o in cs(n).ops && o in cs(k).ops && !cs(n).ops[o].cfg.incoming
    ensures !cs(k).ops[o].cfg.incoming && !Doomed(cs(k).ops[o])
  {
    if n <= k {
      KindStays(cs, es, o, n, k);
    } else {
      KindStays(cs, es, o, k, n);
    }
    RunGood(cs, es, k);
    OutgoingNotDoomed(cs(k).ops[o]);
  }

  lemma OutgoingNotDoomed(op: Op)
    requires OpInv(op) && !op.cfg.incoming
    ensures !Doomed(op)
  {
  }

  lemma {:induction false} KindStays(cs: nat -> Conn, es: nat -> Event, o: nat, n: nat, m: nat)
    requires Run(cs, es) && n <= m && o in cs(n).ops
    ensures o in cs(m).ops && cs(m).ops[o].cfg == cs(n).ops[o].cfg
    decreases m - n
  {
    if n < m {
      RunStep(cs, es, n);
      ApplyLater(cs(n), es(n), o);
      KindStays(cs, es, o, n + 1, m);
    }
  }

  // ---------------------------------------------------------------- the loop

  lemma LoopChange(c: Conn, e: Event)
    requires ConnInv(c) && c.state.Destroying? && Apply(c, e).Some? && Apply(c, e).value.loop != c.loop
    ensures c.loop.Busy? ==> e.Drop? && Apply(c, e).value.loop.Picking?
    ensures c.loop.Picking? ==> e.Pick? || (e.EndLoop? && Apply(c, e).value.loop.Ended?)
    ensures !c.loop.Ended?
  {
    if e.Pick? {
      PickResult(c);
    } else if e.Drop? {
      DropResult(c);
    } else if !e.EndLoop? {
      LoopOrList(c, e);
    }
  }

  /** The last time before m at which the loop is where it was at n. */
  lemma {:induction false} LoopLeaves(cs: nat -> Conn, es: nat -> Event, n: nat, m: nat) returns (j: nat)
    requires Run(cs, es) && n <= m && cs(m).loop != cs(n).loop
    ensures n <= j < m && cs(j).loop == cs(n).loop && cs(j + 1).loop != cs(n).loop
    decreases m - n
  {
    if cs(n + 1).loop != cs(n).loop {
      j := n;
    } else {
      j := LoopLeaves(cs, es, n + 1, m);
    }
  }

  lemma {:induction false} DyingOn(cs: nat -> Conn, es: nat -> Event, n: nat, m: nat)
    requires Run(cs, es) && n <= m && cs(n).state.Destroying?
    ensures cs(m).state.Destroying? && Pickable(cs(m)) <= Pickable(cs(n))
    decreases m - n
  {
    if n < m {
      RunStep(cs, es, n);
      StaysDying(cs(n), es(n));
      ApplyPicks(cs(n), es(n));
      DyingOn(cs, es, n + 1, m);
    }
  }

  /** A canceller that is done stays so until the loop drops its reference. */
  lemma DoneStays(c: Conn, e: Event, o: nat)
    requires ConnInv(c) && c.loop == Busy(o) && CancelOver(c.ops[o], Teardown) && Apply(c, e).Some?
    requires Apply(c, e).value.loop == c.loop
    ensures o in Apply(c, e).value.ops && CancelOver(Apply(c, e).value.ops[o], Teardown)
  {
    ApplySteps(c, e, o);
    var op, op' := c.ops[o], Apply(c, e).value.ops[o];
    if op' != op {
      var s :| StepOk(c.state.Destroying?, c.state.Enabled?, op, s) && op' == Move(c.state.Enabled?, op, s).value.op;
      DoneSlot(c.state.Enabled?, op, s);
    }
  }

  lemma DoneSlot(enabled: bool, op: Op, s: Step)
    requires op.teardown.Some? && op.teardown.value.phase.Done? && Move(enabled, op, s).Some?
    ensures CancelOver(Move(enabled, op, s).value.op, Teardown)
  {
    if !OfCanceller(s, Teardown) {
      SlotStays(enabled, op, s, Teardown);
    } else {
      DoneCancel(enabled, op, s);
    }
  }

  lemma DoneCancel(enabled: bool, op: Op, s: Step)
    requires op.teardown.Some? && op.teardown.value.phase.Done? && Move(enabled, op, s).Some?
    requires OfCanceller(s, Teardown)
    ensures CancelOver(Move(enabled, op, s).value.op, Teardown)
  {
  }

  /** A ready loop stays ready until it moves. */
  lemma ReadyStays(cs: nat -> Conn, es: nat -> Event, n: nat)
    requires Run(cs, es) && LoopReady(cs(n)) && cs(n + 1).loop == cs(n).loop
    ensures LoopReady(cs(n + 1))
  {
    if cs(n).loop.Busy? {
      RunStep(cs, es, n);
      DoneStays(cs(n), es(n), cs(n).loop.op);
    }
  }

  /** From n to k the loop moves, or it is still ready. */
  lemma {:induction false} ReadyUntil(cs: nat -> Conn, es: nat -> Event, n: nat, k: nat) returns (j: nat)
    requires Run(cs, es) && n <= k && LoopReady(cs(n))
    ensures n <= j <= k && cs(j).loop == cs(n).loop
    ensures if j < k then cs(j + 1).loop != cs(n).loop else LoopReady(cs(k))
    decreases k - n
  {
    if n == k || cs(n + 1).loop != cs(n).loop {
      j := n;
    } else {
      ReadyStays(cs, es, n);
      j := ReadyUntil(cs, es, n + 1, k);
    }
  }

  /** Ready is what it says: some event of the loop is possible exactly then. */
  lemma LoopReadyIsPossible(c: Conn)
    requires ConnInv(c)
    ensures LoopReady(c) <==> Apply(c, Pick).Some? || Apply(c, Drop).Some? || Apply(c, EndLoop).Some?
  {
    if c.loop.Busy? {
      DropPossible(c);
      OnlyDrop(c);
    } else if c.loop.Picking? && c.list != [] {
      PickConn(c);
    }
  }

  lemma DropPossible(c: Conn)
    requires ConnInv(c) && c.loop.Busy?
    ensures Apply(c, Drop).Some? <==> CancelOver(c.ops[c.loop.op], Teardown)
  {
    BusyHasTeardown(c);
    if CancelOver(c.ops[c.loop.op], Teardown) {
      CanDrop(c);
    } else if Apply(c, Drop).Some? {
      DropResult(c);
    }
  }

  lemma OnlyDrop(c: Conn)
    requires c.loop.Busy?
    ensures Apply(c, Pick).None? && Apply(c, EndLoop).None?
  {
  }

  lemma BusyHasTeardown(c: Conn)
    requires ConnInv(c) && c.loop.Busy?
    ensures c.loop.op in c.ops && c.ops[c.loop.op].teardown.Some?
  {
  }

  /** When a loop event happens, the loop moves. */
  lemma LoopEventMoves(c: Conn, e: Event)
    requires Apply(c, e).Some? && OfLoop(e)
    ensures Apply(c, e).value.loop != c.loop
  {
    if e.Pick? {
      PickResult(c);
    } else if e.Drop? {
      DropResult(c);
    }
  }

  lemma LoopAt(cs: nat -> Conn, es: nat -> Event, k: nat)
    requires Run(cs, es) && LoopReady(cs(k)) && LoopActs(cs, es, k)
    ensures cs(k + 1).loop != cs(k).loop
  {
    RunStep(cs, es, k);
    LoopEventMoves(cs(k), es(k));
  }

  /** In a fair run a ready loop moves. */
  lemma LoopGoesOn(cs: nat -> Conn, es: nat -> Event, n: nat) returns (j: nat)
    requires Run(cs, es) && LoopActsFrom(cs, es, n) && LoopReady(cs(n))
    ensures j >= n && cs(j).loop == cs(n).loop && cs(j + 1).loop != cs(n).loop
  {
    var k: nat :| k >= n && LoopActs(cs, es, k);
    j := ReadyUntil(cs, es, n, k);
    if j == k {
      LoopAt(cs, es, k);
    }
  }

  /** No state of the run is stuck. */
  ghost predicate NeverStuck(cs: nat -> Conn) {
    forall k: nat :: !Stuck(cs(k))
  }

  lemma NotStuckNotDoomed(c: Conn, o: nat)
    requires ConnInv(c) && !Stuck(c) && o in c.ops
    ensures !Doomed(c.ops[o])
  {
  }

  /** A busy loop comes back to picking. */
  lemma BusyLeaves(cs: nat -> Conn, es: nat -> Event, n: nat) returns (j: nat)
    requires Run(cs, es) && Fair(cs, es) && NeverStuck(cs) && cs(n).loop.Busy?
    ensures j >= n && cs(j).loop == cs(n).loop && cs(j + 1).loop != cs(n).loop
  {
    var o := cs(n).loop.op;
    BusyOp(cs, es, o, n);
    assert FairHelpers(cs, es, o) && FairCanceller(cs, es, o, Teardown);
    var m := CancellerReturns(cs, es, o, Teardown, n);
    if cs(m).loop == cs(n).loop {
      assert LoopActsFrom(cs, es, m);
      j := LoopGoesOn(cs, es, m);
    } else {
      j := LoopLeaves(cs, es, n, m);
    }
  }

  lemma BusyOp(cs: nat -> Conn, es: nat -> Event, o: nat, n: nat)
    requires Run(cs, es) && NeverStuck(cs) && cs(n).loop == Busy(o)
    ensures o in cs(n).ops && NeverDoomed(cs, o)
  {
    RunGood(cs, es, n);
    forall k: nat | o in cs(k).ops ensures !Doomed(cs(k).ops[o]) {
      RunGood(cs, es, k);
      NotStuckNotDoomed(cs(k), o);
    }
  }

  /** The loop has ended with an empty list. */
  predicate LoopOver(c: Conn) {
    c.loop.Ended? && c.list == []
  }

  /** How far the loop is from its end. */
  function LoopRank(c: Conn): int {
    3 * Pickable(c) + (if c.loop.Busy? then 2 else if c.loop.Picking? then 1 else 0)
  }

  lemma {:induction false} LoopEnds(cs: nat -> Conn, es: nat -> Event, n: nat) returns (m: nat)
    requires Run(cs, es) && Fair(cs, es) && NeverStuck(cs) && cs(n).state.Destroying?
    ensures m >= n && LoopOver(cs(m))
    decreases LoopRank(cs(n))
  {
    LoopState(cs, es, n);
    if cs(n).loop.Ended? {
      m := n;
    } else {
      var j: nat;
      if cs(n).loop.Busy? {
        j := BusyLeaves(cs, es, n);
      } else {
        assert LoopActsFrom(cs, es, n);
        j := LoopGoesOn(cs, es, n);
      }
      DyingOn(cs, es, n, j);
      LoopMoved(cs, es, j);
      m := LoopEnds(cs, es, j + 1);
    }
  }

  lemma LoopState(cs: nat -> Conn, es: nat -> Event, n: nat)
    requires Run(cs, es) && cs(n).state.Destroying?
    ensures !cs(n).loop.NotStarted? && (cs(n).loop.Ended? ==> LoopOver(cs(n))) && Pickable(cs(n)) >= 0
  {
    RunGood(cs, es, n);
    PickableNat(cs(n));
  }

  /** Each move of the loop takes it further. */
  lemma LoopMoved(cs: nat -> Conn, es: nat -> Event, j: nat)
    requires Run(cs, es) && cs(j).state.Destroying? && cs(j + 1).loop != cs(j).loop
    ensures cs(j + 1).state.Destroying? && LoopRank(cs(j + 1)) < LoopRank(cs(j))
  {
    RunStep(cs, es, j);
    StaysDying(cs(j), es(j));
    LoopChange(cs(j), es(j));
    ApplyPicks(cs(j), es(j));
  }

  lemma {:induction false} StuckOn(cs: nat -> Conn, es: nat -> Event, n: nat, m: nat)
    requires Run(cs, es) && n <= m
    ensures Stuck(cs(n)) ==> Stuck(cs(m))
    ensures cs(n).state.Destroying? && cs(n).loop.Ended? ==> cs(m).loop.Ended?
    decreases m - n
  {
    if n < m {
      RunStep(cs, es, n);
      if Stuck(cs(n)) {
        StuckApply(cs(n), es(n));
      }
      if cs(n).state.Destroying? && cs(n).loop.Ended? {
        EndedNext(cs(n), es(n));
      }
      StuckOn(cs, es, n + 1, m);
    }
  }

  lemma EndedNext(c: Conn, e: Event)
    requires ConnInv(c) && c.state.Destroying? && c.loop.Ended? && Apply(c, e).Some?
    ensures Apply(c, e).value.state.Destroying? && Apply(c, e).value.loop.Ended?
  {
    StaysDying(c, e);
    if Apply(c, e).value.loop != c.loop {
      LoopChange(c, e);
    }
  }

  /**
   In every fair run of a connection that is being destroyed the cancel loop ends with an empty list, exactly unless
   teardown gets stuck in the cancel of a missing response.
   */
  lemma FairTeardownEnds(cs: nat -> Conn, es: nat -> Event)
    requires Run(cs, es) && Fair(cs, es) && cs(0).state.Destroying?
    ensures (exists m: nat :: LoopOver(cs(m))) <==> NeverStuck(cs)
  {
    if NeverStuck(cs) {
      var m := LoopEnds(cs, es, 0);
    } else {
      var k: nat :| Stuck(cs(k));
      forall m: nat ensures !LoopOver(cs(m)) {
        DyingOn(cs, es, 0, m);
        if k <= m {
          StuckOn(cs, es, k, m);
        } else {
          StuckOn(cs, es, m, k);
        }
      }
    }
  }
}
