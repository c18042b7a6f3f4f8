/** The order of connection->operations: what became active last is cancelled first. */
module EngineOrder {
  import opened Common
  import opened Errno
  import opened Engine
  import opened EngineInvariant
  import opened EngineRuns
  import opened EngineStory

  /** The list has stayed, or an operation was added at its tail or taken out. */
  ghost predicate Updated(list: seq<nat>, list': seq<nat>) {
    || list' == list
    || (exists o: nat :: o !in list && list' == list + [o])
    || (exists o: nat :: o in list && list' == Without(list, o))
  }

  lemma RelinkUpdates(c: Conn, o: nat, e: Effect)
    requires ListOk(c) && o in c.ops && LinksMatch(c.ops[o], e)
    ensures Updated(c.list, Relink(c.list, o, e.links))
  {
  }

  lemma OnOpUpdates(c: Conn, o: nat, s: Step)
    requires ListOk(c) && o in c.ops && OpInv(c.ops[o]) && OnOp(c, o, s).Some?
    requires s.CancelBegin? || s.Lookup? ==> c.ops[o].active > 0
    ensures Updated(c.list, OnOp(c, o, s).value.list)
  {
    MoveKeeps(c.state.Enabled?, c.ops[o], s);
    RelinkUpdates(c, o, Move(c.state.Enabled?, c.ops[o], s).value);
  }

  lemma ReceiveUpdates(c: Conn, data: seq<byte>, o: nat)
    requires ConnInv(c) && Apply(c, Receive(data, o)).Some?
    ensures Updated(c.list, Apply(c, Receive(data, o)).value.list)
  {
    if IsResponse(data) {
      FindOutgoingFinds(c.ops, c.list, MessageId(data));
      match FindOutgoing(c.ops, c.list, MessageId(data))
      case None =>
      case Some(q) => OnOpUpdates(c.(rx := c.rx + [data]), q, Lookup(data));
    }
  }

  lemma ApplyUpdates(c: Conn, e: Event)
    requires ConnInv(c) && Apply(c, e).Some?
    ensures Updated(c.list, Apply(c, e).value.list)
  {
    match e
    case OpStep(o, s) => OnOpUpdates(c, o, s);
    case TakeId(o) =>
      TakeIdResult(c, o);
      OnOpUpdates(c.(opCycle := NextCycle(c)), o, AssignId(NextCycle(c)));
    case Receive(data, o) => ReceiveUpdates(c, data, o);
    case Pick => PickResult(c);
    case Drop => DropResult(c);
    case _ =>
  }

  // ------------------------------------------------------------------------ runs

  /** The list after the first k events of a run. */
  ghost function ListAt(es: seq<Event>, k: nat): seq<nat>
    requires k <= |es|
  {
    match Exec(NEW_CONN, es[..k])
    case None => []
    case Some(c) => c.list
  }

  /** Event k has put o on the list, where it has been ever since. */
  ghost predicate ActiveSince(es: seq<Event>, o: nat, k: nat) {
    k < |es| && o !in ListAt(es, k) && forall m :: k < m <= |es| ==> o in ListAt(es, m)
  }

  lemma SameList(es: seq<Event>, e: Event, k: nat)
    requires k <= |es|
    ensures ListAt(es + [e], k) == ListAt(es, k)
  {
    assert (es + [e])[..k] == es[..k];
  }

  lemma StillActive(es: seq<Event>, e: Event, o: nat, k: nat)
    requires ActiveSince(es, o, k) && o in ListAt(es + [e], |es| + 1)
    ensures ActiveSince(es + [e], o, k)
  {
    SameList(es, e, k);
    forall m | k < m <= |es| + 1 ensures o in ListAt(es + [e], m) {
      if m <= |es| {
        SameList(es, e, m);
      }
    }
  }

  lemma NowActive(es: seq<Event>, e: Event, o: nat)
    requires o !in ListAt(es, |es|) && o in ListAt(es + [e], |es| + 1)
    ensures ActiveSince(es + [e], o, |es|)
  {
    SameList(es, e, |es|);
  }

  /** Positions in a list from which one element was taken. */
  lemma {:induction false} WithoutPosition(list: seq<nat>, o: nat, i: nat, j: nat) returns (i': nat, j': nat)
    requires i < j < |Without(list, o)|
    ensures i' < j' < |list| && list[i'] == Without(list, o)[i] && list[j'] == Without(list, o)[j]
  {
    if list[0] == o {
      i', j' := i + 1, j + 1;
    } else if i > 0 {
      i', j' := WithoutPosition(list[1..], o, i - 1, j - 1);
      i', j' := i' + 1, j' + 1;
    } else {
      var rest := Without(list[1..], o);
      WithoutFrom(list[1..], o, rest[j - 1]);
      var p :| 0 <= p < |list[1..]| && list[1..][p] == rest[j - 1];
      i', j' := 0, p + 1;
    }
  }

  lemma {:induction false} WithoutFrom(list: seq<nat>, o: nat, x: nat)
    requires x in Without(list, o)
    ensures x in list
  {
    if list[0] != o && x != list[0] {
      WithoutFrom(list[1..], o, x);
    }
  }

  ghost predicate Active(es: seq<Event>, o: nat) {
    exists k: nat :: ActiveSince(es, o, k)
  }

  /** a became active before b. */
  ghost predicate InOrder(es: seq<Event>, a: nat, b: nat) {
    exists p: nat, q: nat :: p < q && ActiveSince(es, a, p) && ActiveSince(es, b, q)
  }

  ghost predicate Ordered(es: seq<Event>, list: seq<nat>) {
    && (forall i :: 0 <= i < |list| ==> Active(es, list[i]))
    && (forall i, j :: 0 <= i < j < |list| ==> InOrder(es, list[i], list[j]))
  }

  lemma StaysInOrder(es: seq<Event>, e: Event, a: nat, b: nat)
    requires InOrder(es, a, b) && a in ListAt(es + [e], |es| + 1) && b in ListAt(es + [e], |es| + 1)
    ensures InOrder(es + [e], a, b)
  {
    var p: nat, q: nat :| p < q && ActiveSince(es, a, p) && ActiveSince(es, b, q);
    StillActive(es, e, a, p);
    StillActive(es, e, b, q);
  }

  lemma SinceStays(es: seq<Event>, e: Event, o: nat)
    requires Active(es, o) && o in ListAt(es + [e], |es| + 1)
    ensures Active(es + [e], o)
  {
    var k: nat :| ActiveSince(es, o, k);
    StillActive(es, e, o, k);
  }

  lemma AppendOrdered(es: seq<Event>, e: Event, list: seq<nat>, o: nat)
    requires Ordered(es, list) && o !in list && ListAt(es, |es|) == list && ListAt(es + [e], |es| + 1) == list + [o]
    ensures Ordered(es + [e], list + [o])
  {
    var all := list + [o];
    NowActive(es, e, o);
    forall i | 0 <= i < |all| ensures Active(es + [e], all[i]) {
      if i < |list| {
        SinceStays(es, e, list[i]);
      }
    }
    forall i, j | 0 <= i < j < |all| ensures InOrder(es + [e], all[i], all[j]) {
      if j < |list| {
        StaysInOrder(es, e, list[i], list[j]);
      } else {
        var p: nat :| ActiveSince(es, list[i], p);
        StillActive(es, e, list[i], p);
      }
    }
  }

  lemma KeepOrdered(es: seq<Event>, e: Event, list: seq<nat>)
    requires Ordered(es, list)
    requires ListAt(es + [e], |es| + 1) == list
    ensures Ordered(es + [e], list)
  {
    forall i | 0 <= i < |list| ensures Active(es + [e], list[i]) {
      SinceStays(es, e, list[i]);
    }
    forall i, j | 0 <= i < j < |list| ensures InOrder(es + [e], list[i], list[j]) {
      StaysInOrder(es, e, list[i], list[j]);
    }
  }

  lemma RemoveOrdered(es: seq<Event>, e: Event, list: seq<nat>, o: nat)
    requires Ordered(es, list)
    requires ListAt(es + [e], |es| + 1) == Without(list, o)
    ensures Ordered(es + [e], Without(list, o))
  {
    var rest := Without(list, o);
    forall i | 0 <= i < |rest| ensures Active(es + [e], rest[i]) {
      WithoutFrom(list, o, rest[i]);
      var p :| 0 <= p < |list| && list[p] == rest[i];
      SinceStays(es, e, list[p]);
    }
    forall i, j | 0 <= i < j < |rest| ensures InOrder(es + [e], rest[i], rest[j]) {
      var i', j' := WithoutPosition(list, o, i, j);
      StaysInOrder(es, e, list[i'], list[j']);
    }
  }

  /** Over every run, the list is in the order in which its operations became active. */
  lemma {:induction false} ListIsOrdered(es: seq<Event>, c: Conn)
    requires Exec(NEW_CONN, es) == Some(c)
    ensures Ordered(es, c.list)
    decreases |es|
  {
    if es != [] {
      var pre, e := es[..|es| - 1], es[|es| - 1];
      assert es == pre + [e];
      ExecSnoc(NEW_CONN, pre, e);
      var c0 := Exec(NEW_CONN, pre).value;
      ListIsOrdered(pre, c0);
      AfterEvent(pre, c0, e, c);
    }
  }

  lemma WholeList(es: seq<Event>, c: Conn)
    requires Exec(NEW_CONN, es) == Some(c)
    ensures ListAt(es, |es|) == c.list
  {
    assert es[..|es|] == es;
  }

  lemma AfterEvent(pre: seq<Event>, c0: Conn, e: Event, c: Conn)
    requires Exec(NEW_CONN, pre) == Some(c0) && Exec(NEW_CONN, pre + [e]) == Some(c) && Apply(c0, e) == Some(c)
    requires Ordered(pre, c0.list)
    ensures Ordered(pre + [e], c.list)
  {
    ExecKeeps(NEW_CONN, pre);
    ApplyUpdates(c0, e);
    WholeList(pre, c0);
    WholeList(pre + [e], c);
    NextOrdered(pre, e, c0.list, c.list);
  }

  lemma NextOrdered(pre: seq<Event>, e: Event, list: seq<nat>, list': seq<nat>)
    requires Ordered(pre, list) && Updated(list, list')
    requires ListAt(pre, |pre|) == list && ListAt(pre + [e], |pre| + 1) == list'
    ensures Ordered(pre + [e], list')
  {
    if list' == list {
      KeepOrdered(pre, e, list);
    } else if o: nat :| o !in list && list' == list + [o] {
      AppendOrdered(pre, e, list, o);
    } else {
      var o: nat :| o in list && list' == Without(list, o);
      RemoveOrdered(pre, e, list, o);
    }
  }

  lemma LastIsNewest(es: seq<Event>, list: seq<nat>, o: nat)
    requires Ordered(es, list) && o in list
    ensures list[|list| - 1] == o || InOrder(es, o, list[|list| - 1])
  {
    var i :| 0 <= i < |list| && list[i] == o;
    if i < |list| - 1 {
      assert InOrder(es, list[i], list[|list| - 1]);
    }
  }

  /** Over every run, teardown takes hold of the operation that became active last. */
  lemma NewestFirst(es: seq<Event>, c: Conn, o: nat)
    requires Exec(NEW_CONN, es) == Some(c) && Apply(c, Pick).Some? && o in c.list
    ensures exists picked: nat :: Apply(c, Pick).value.loop == Busy(picked) && (o == picked || InOrder(es, o, picked))
  {
    ListIsOrdered(es, c);
    LastIsNewest(es, c.list, o);
    LastIsPicked(c);
  }

  lemma LastIsPicked(c: Conn)
    requires Apply(c, Pick).Some?
    ensures c.list != [] && Apply(c, Pick).value.loop == Busy(c.list[|c.list| - 1])
  {
    PickResult(c);
  }
}
