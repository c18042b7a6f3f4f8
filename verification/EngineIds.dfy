/** Operation ids, and which operation a response is delivered to. */
module EngineIds {
  import opened Common
  import opened Errno
  import opened Engine
  import opened EngineInvariant
  import opened EngineRuns

  /** The id of the cycle-th send: the 32-bit counter wraps before it is reduced to 1..65535. */
  function IdOf(cycle: nat): (id: nat)
    ensures 1 <= id <= 65535
  {
    cycle % CYCLES % 65535 + 1
  }

  // ------------------------------------------------------------- arithmetic

  lemma ModIs(n: int, q: int, r: int)
    requires n == 65535 * q + r && 0 <= r < 65535
    ensures n % 65535 == r
  {
  }

  /** Over a stretch in which op_cycle does not wrap, two sends share an id exactly when they are a multiple of
      65535 apart. */
  lemma SameId(a: nat, b: nat)
    requires a <= b && a / CYCLES == b / CYCLES
    ensures IdOf(a) == IdOf(b) <==> (b - a) % 65535 == 0
  {
  }

  /** The two sends on either side of a wrap of op_cycle. */
  predicate AcrossWrap(a: nat, b: nat) {
    b == a + 1 && b % CYCLES == 0
  }

  /** Fewer than 65535 sends apart, two sends share an id exactly when they are the two on either side of a wrap:
      2^32 leaves 1 when divided by 65535. */
  lemma WindowIds(a: nat, b: nat)
    requires a < b < a + 65535
    ensures IdOf(a) == IdOf(b) <==> AcrossWrap(a, b)
  {
    if a / CYCLES == b / CYCLES {
      SameId(a, b);
      ModIs(b - a, 0, b - a);
      assert a % CYCLES < b % CYCLES;
    } else {
      WrapIds(a, b);
    }
  }

  lemma WrapIds(a: nat, b: nat)
    requires a < b < a + 65535 && a / CYCLES != b / CYCLES
    ensures IdOf(a) == IdOf(b) <==> AcrossWrap(a, b)
  {
  }

  // -------------------------------------------------------------- invariant

  predicate TagOk(op: Op, cycle: nat) {
    !op.cfg.incoming ==>
      && 0 <= op.tag.cycle <= cycle
      && (op.tag.cycle > 0 ==> op.tag.id == IdOf(op.tag.cycle))
      && (HasId(op) ==> op.tag.cycle > 0)
  }

  predicate SharesCycle(a: Op, b: Op) {
    !a.cfg.incoming && !b.cfg.incoming && a.tag.cycle > 0 && a.tag.cycle == b.tag.cycle
  }

  ghost predicate IdInv(c: Conn) {
    && 0 <= c.opCycle
    && (forall o :: o in c.ops ==> TagOk(c.ops[o], c.opCycle))
    && (forall o, p :: o in c.ops && p in c.ops && o != p ==> !SharesCycle(c.ops[o], c.ops[p]))
  }

  /** A step that leaves the tag alone. */
  lemma SameTagKeeps(c: Conn, o: nat, op: Op, c': Conn)
    requires IdInv(c) && o in c.ops
    requires op.cfg == c.ops[o].cfg && op.tag == c.ops[o].tag && (HasId(op) ==> HasId(c.ops[o]))
    requires c'.opCycle == c.opCycle && c'.ops == c.ops[o := op]
    ensures IdInv(c')
  {
  }

  lemma OnOpIds(c: Conn, o: nat, s: Step)
    requires ConnInv(c) && IdInv(c) && OnOp(c, o, s).Some? && !s.AssignId?
    ensures IdInv(OnOp(c, o, s).value)
  {
    InvHasNoReservedResult(c.ops[o]);
    MoveFrame(c.state.Enabled?, c.ops[o], s);
    SameTagKeeps(c, o, Move(c.state.Enabled?, c.ops[o], s).value.op, OnOp(c, o, s).value);
  }

  /** A fresh cycle is shared with nobody. */
  lemma RetagKeeps(c: Conn, o: nat, op: Op, c': Conn)
    requires IdInv(c) && o in c.ops && !op.cfg.incoming
    requires op.tag == Tag(IdOf(c.opCycle + 1), c.opCycle + 1)
    requires c'.opCycle == c.opCycle + 1 && c'.ops == c.ops[o := op]
    ensures IdInv(c')
  {
  }

  lemma AssignIdFacts(enabled: bool, op: Op, cycle: int)
    requires OpInv(op) && Move(enabled, op, AssignId(cycle)).Some? && cycle > 0
    ensures var op' := Move(enabled, op, AssignId(cycle)).value.op;
      !op'.cfg.incoming && op'.tag == Tag(IdOf(cycle), cycle)
  {
  }

  lemma TakeIdIds(c: Conn, o: nat)
    requires ConnInv(c) && IdInv(c) && Apply(c, TakeId(o)).Some?
    ensures IdInv(Apply(c, TakeId(o)).value)
  {
    TakeIdResult(c, o);
    AssignIdFacts(c.state.Enabled?, c.ops[o], c.opCycle + 1);
    RetagKeeps(c, o, Move(c.state.Enabled?, c.ops[o], AssignId(c.opCycle + 1)).value.op,
               Apply(c, TakeId(o)).value);
  }

  lemma ReceiveIds(c: Conn, data: seq<byte>, o: nat)
    requires ConnInv(c) && IdInv(c) && Apply(c, Receive(data, o)).Some?
    ensures IdInv(Apply(c, Receive(data, o)).value)
  {
    if IsResponse(data) {
      match FindOutgoing(c.ops, c.list, MessageId(data))
      case None =>
      case Some(p) =>
        ReceivedKeeps(c, data);
        OnOpIds(c.(rx := c.rx + [data]), p, Lookup(data));
    }
  }

  lemma HoldIds(c: Conn, e: Event)
    requires ConnInv(c) && IdInv(c) && Apply(c, e).Some? && (e.Pick? || e.Drop?)
    ensures IdInv(Apply(c, e).value)
  {
    var c' := Apply(c, e).value;
    if e.Pick? {
      PickResult(c);
      var o := c.list[|c.list| - 1];
      HoldLeaves(c.ops[o], CancelBegin(ESHUTDOWN));
      SameTagKeeps(c, o, c'.ops[o], c');
    } else {
      DropResult(c);
      HoldLeaves(c.ops[c.loop.op], CancelEnd);
      SameTagKeeps(c, c.loop.op, c'.ops[c.loop.op], c');
    }
  }

  lemma ApplyIds(c: Conn, e: Event)
    requires ConnInv(c) && IdInv(c) && Apply(c, e).Some?
    ensures IdInv(Apply(c, e).value)
  {
    match e
    case OpStep(o, s) => OnOpIds(c, o, s);
    case TakeId(o) => TakeIdIds(c, o);
    case Receive(data, o) => ReceiveIds(c, data, o);
    case Pick => HoldIds(c, e);
    case Drop => HoldIds(c, e);
    case _ =>
  }

  lemma {:induction false} ExecIds(c: Conn, es: seq<Event>)
    requires ConnInv(c) && IdInv(c) && Exec(c, es).Some?
    ensures IdInv(Exec(c, es).value) && ConnInv(Exec(c, es).value)
    decreases |es|
  {
    if es != [] {
      ApplyIds(c, es[0]);
      ApplyKeeps(c, es[0]);
      ExecIds(Apply(c, es[0]).value, es[1..]);
    }
  }

  lemma ReachableIds(c: Conn)
    requires Reachable(c)
    ensures IdInv(c) && ConnInv(c)
  {
    var es :| Exec(NEW_CONN, es) == Some(c);
    ExecIds(NEW_CONN, es);
  }

  // ---------------------------------------------------------------- delivery

  predicate InFlight(c: Conn, o: nat) {
    o in c.list && o in c.ops && !c.ops[o].cfg.incoming
  }

  /** All sends in flight lie inside one window of 65535 sends. */
  ghost predicate InWindow(c: Conn) {
    forall o, p :: InFlight(c, o) && InFlight(c, p) ==> c.ops[o].tag.cycle - c.ops[p].tag.cycle < 65535
  }

  /** No send in flight shares its id with another. */
  ghost predicate IdsDistinct(c: Conn) {
    forall o, p :: InFlight(c, o) && InFlight(c, p) && o != p ==> c.ops[o].tag.id != c.ops[p].tag.id
  }

  /** The two sends on either side of a wrap of op_cycle are in flight together. */
  ghost predicate WrapInFlight(c: Conn) {
    exists o, p :: InFlight(c, o) && InFlight(c, p)
      && 0 < c.ops[o].tag.cycle && 0 < c.ops[p].tag.cycle
      && AcrossWrap(c.ops[o].tag.cycle, c.ops[p].tag.cycle)
  }

  lemma InFlightHasId(c: Conn, o: nat)
    requires ConnInv(c) && IdInv(c) && InFlight(c, o)
    ensures 0 < c.ops[o].tag.cycle && c.ops[o].tag.id == IdOf(c.ops[o].tag.cycle)
    ensures 1 <= c.ops[o].tag.id <= 65535
  {
  }

  lemma PairDistinct(c: Conn, o: nat, p: nat)
    requires ConnInv(c) && IdInv(c) && InWindow(c) && InFlight(c, o) && InFlight(c, p) && o != p
    ensures 0 < c.ops[o].tag.cycle && 0 < c.ops[p].tag.cycle
    ensures (c.ops[o].tag.id == c.ops[p].tag.id
             <==> || AcrossWrap(c.ops[o].tag.cycle, c.ops[p].tag.cycle)
                  || AcrossWrap(c.ops[p].tag.cycle, c.ops[o].tag.cycle))
  {
    InFlightHasId(c, o);
    InFlightHasId(c, p);
    assert !SharesCycle(c.ops[o], c.ops[p]);
    var a, b := c.ops[o].tag.cycle, c.ops[p].tag.cycle;
    if a < b {
      WindowIds(a, b);
    } else {
      WindowIds(b, a);
    }
  }

  /** In every reachable state with all sends in flight inside one window, ids are in 1..65535, and no two sends in
      flight share one, exactly unless the two sends on either side of a wrap of op_cycle are in flight together. */
  lemma DistinctUnlessWrap(c: Conn)
    requires Reachable(c) && InWindow(c)
    ensures forall o :: InFlight(c, o) ==> 1 <= c.ops[o].tag.id <= 65535
    ensures IdsDistinct(c) <==> !WrapInFlight(c)
  {
    ReachableIds(c);
    forall o | InFlight(c, o)
      ensures 1 <= c.ops[o].tag.id <= 65535
    {
      InFlightHasId(c, o);
    }
    WindowDistinct(c);
  }

  lemma WindowDistinct(c: Conn)
    requires ConnInv(c) && IdInv(c) && InWindow(c)
    ensures IdsDistinct(c) <==> !WrapInFlight(c)
  {
    if WrapInFlight(c) {
      var o, p :| InFlight(c, o) && InFlight(c, p) && 0 < c.ops[o].tag.cycle && 0 < c.ops[p].tag.cycle
        && AcrossWrap(c.ops[o].tag.cycle, c.ops[p].tag.cycle);
      PairDistinct(c, o, p);
    } else {
      forall o, p | InFlight(c, o) && InFlight(c, p) && o != p
        ensures c.ops[o].tag.id != c.ops[p].tag.id
      {
        PairDistinct(c, o, p);
      }
    }
  }

  /** A response then reaches only its own operation: the lookup finds an operation exactly when that operation is
      in flight under the id of the response. */
  lemma ResponseReachesItsOwn(c: Conn, o: nat, id: int)
    requires Reachable(c) && InWindow(c) && !WrapInFlight(c)
    requires forall p :: p in c.list ==> p in c.ops
    ensures FindOutgoing(c.ops, c.list, id) == Some(o) <==> InFlight(c, o) && c.ops[o].tag.id == id
  {
    DistinctUnlessWrap(c);
    FindOutgoingFinds(c.ops, c.list, id);
    match FindOutgoing(c.ops, c.list, id)
    case None =>
    case Some(p) => assert InFlight(c, p);
  }
}
