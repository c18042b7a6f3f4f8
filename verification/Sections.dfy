/**
 The spinlock sections of operation.c as they update an operation and its connection in place.
 Each refines the step of the engine that stands for it: rec is the engine's view of the operation.
 */
module Sections {
  import opened Errno
  import opened Common
  import Engine

  predicate CarriesId(data: seq<byte>, id: u16) {
    |data| >= Engine.HEADER && Engine.MessageId(data) == id
  }

  class Operation {
    const address: nat
    const incoming: bool
    var id: int
    var errno: int
    var kref: int
    var active: int
    var waiters: int

    /** gb_operation_create_common: a new operation is what the engine creates. */
    constructor (address: nat, incoming: bool, id: u16)
      requires !incoming ==> id == 0
      ensures this.address == address && this.incoming == incoming
      ensures !incoming ==> forall sync, user :: Shows(Engine.Outgoing(sync, user))
      ensures incoming ==> forall data: seq<byte> :: CarriesId(data, id) ==> Shows(Engine.Incoming(data))
    {
      this.address, this.incoming, this.id := address, incoming, id;
      errno, kref, active, waiters := EBADR, 1, 0, 0;
    }

    /** The engine's record of this operation agrees with its fields. */
    ghost predicate Shows(rec: Engine.Op)
      reads this
    {
      && rec.cfg.incoming == incoming
      && rec.tag.id == id
      && rec.errno == errno
      && rec.kref == kref
      && rec.active == active
      && rec.waiters == waiters
    }

    /** gb_operation_result_set. */
    method ResultSet(result: int, ghost rec: Engine.Op) returns (recorded: bool)
      requires Shows(rec)
      modifies this`errno
      ensures recorded == Engine.ResultSet(rec.errno, result).1
      ensures Shows(rec.(errno := Engine.ResultSet(rec.errno, result).0))
    {
      if result == EINPROGRESS {
        var prev := errno;
        if prev == EBADR {
          errno := result;
        } else {
          errno := EILSEQ;
        }
        return true;
      }
      var final := result;
      if result == EBADR {
        final := EILSEQ;
      }
      var prev := errno;
      if prev == EINPROGRESS {
        errno := final;
      }
      return prev == EINPROGRESS;
    }
  }

  function Addresses(s: seq<Operation>): (r: seq<nat>)
    ensures |r| == |s| && forall i :: 0 <= i < |s| ==> r[i] == s[i].address
  {
    seq(|s|, i requires 0 <= i < |s| => s[i].address)
  }

  /** list_del on the list of operations. */
  function Unlinked(s: seq<Operation>, op: Operation): seq<Operation> {
    if s == [] then []
    else if s[0] == op then s[1..]
    else [s[0]] + Unlinked(s[1..], op)
  }

  lemma {:induction false} UnlinkedAddresses(s: seq<Operation>, op: Operation)
    requires forall p :: p in s && p.address == op.address ==> p == op
    ensures Addresses(Unlinked(s, op)) == Engine.Without(Addresses(s), op.address)
  {
    if s != [] {
      var rest := s[1..];
      AddressesCons(s[0], rest);
      assert s == [s[0]] + rest;
      if s[0] != op {
        assert s[0].address != op.address by { assert s[0] in s; }
        UnlinkedAddresses(rest, op);
        AddressesCons(s[0], Unlinked(rest, op));
      }
    }
  }

  lemma AddressesCons(p: Operation, rest: seq<Operation>)
    ensures Addresses([p] + rest) == [p.address] + Addresses(rest)
    ensures Addresses([p] + rest)[0] == p.address && Addresses([p] + rest)[1..] == Addresses(rest)
  {
  }

  class Connection {
    var state: Engine.ConnState
    var operations: seq<Operation>

    constructor ()
      ensures state == Engine.NEW_CONN.state && Addresses(operations) == Engine.NEW_CONN.list
    {
      state, operations := Engine.Disabled, [];
    }

    /** Distinct operations have distinct addresses. */
    ghost predicate Distinct(op: Operation)
      reads this
    {
      forall p :: p in operations && p.address == op.address ==> p == op
    }

    ghost predicate AllShow(ops: map<nat, Engine.Op>)
      reads this, operations
    {
      forall p :: p in operations ==> p.address in ops && p.Shows(ops[p.address])
    }

    /** gb_operation_get_active. */
    method GetActive(op: Operation, ghost rec: Engine.Op) returns (ret: int)
      requires op.Shows(rec)
      modifies this`operations, op`active
      ensures ret == if state.Enabled? then 0 else ENOTCONN
      ensures ret == 0 ==> op.Shows(Engine.GetActive(rec).op)
      ensures (ret == 0 ==> Addresses(operations)
                            == Engine.Relink(old(Addresses(operations)), op.address, Engine.GetActive(rec).links))
      ensures ret != 0 ==> op.Shows(rec) && operations == old(operations)
    {
      if !state.Enabled? {
        return ENOTCONN;
      }
      var was := op.active;
      op.active := was + 1;
      if was == 0 {
        operations := operations + [op];
      }
      return 0;
    }

    /** gb_operation_put_active; wake says whether the cancellation queue is woken. */
    method PutActive(op: Operation, ghost rec: Engine.Op) returns (wake: bool)
      requires op.Shows(rec) && Distinct(op)
      modifies this`operations, op`active
      ensures op.Shows(Engine.PutActive(rec).op)
      ensures (Addresses(operations)
               == Engine.Relink(old(Addresses(operations)), op.address, Engine.PutActive(rec).links))
      ensures wake <==> op.active == 0 && op.waiters != 0
      ensures !wake ==> Engine.PutActive(rec).op == rec.(active := rec.active - 1)
      ensures wake ==> Engine.PutActive(rec).op == Engine.Wake(rec.(active := rec.active - 1))
    {
      op.active := op.active - 1;
      wake := false;
      if op.active == 0 {
        UnlinkedAddresses(operations, op);
        operations := Unlinked(operations, op);
        if op.waiters != 0 {
          wake := true;
        }
      }
    }

    /** gb_operation_find_outgoing: the first outgoing operation on the list that has the id, with a reference
        taken on it; nothing else changes. */
    method FindOutgoing(id: u16, ghost ops: map<nat, Engine.Op>) returns (found: Operation?)
      requires AllShow(ops)
      modifies set p | p in operations
      ensures forall a :: a in Addresses(operations) ==> a in ops
      ensures found == null <==> Engine.FindOutgoing(ops, Addresses(operations), id).None?
      ensures (found != null ==>
               && found in operations
               && Engine.FindOutgoing(ops, Addresses(operations), id) == Some(found.address)
               && found.Shows(Engine.Get(ops[found.address])))
      ensures forall p :: p in operations && p != found ==> p.Shows(ops[p.address])
    {
      ghost var list := Addresses(operations);
      assert forall a :: a in list ==> a in ops;
      var i := 0;
      assert list[0..] == list;
      while i < |operations|
        invariant 0 <= i <= |operations| && operations == old(operations) && AllShow(ops)
        invariant Engine.FindOutgoing(ops, list, id) == Engine.FindOutgoing(ops, list[i..], id)
      {
        var p := operations[i];
        assert list[i..][0] == p.address && list[i..][1..] == list[i + 1..];
        if p.id == id && !p.incoming {
          p.kref := p.kref + 1;
          return p;
        }
        i := i + 1;
      }
      return null;
    }
  }
}
