/** Connections of a host device, their CPort ids, and the bundles they belong to. */
module HostDevice {
  import opened Common

  /** struct gb_connection; home is None for the early SVC connection, which has no bundle. */
  datatype Connection = Connection(hdCport: nat, home: Option<Home>, cport: nat, protocol: nat)

  datatype Home = Home(intf: nat, bundle: nat)

  /** struct gb_bundle. */
  datatype Bundle = Bundle(home: Home, cls: nat)

  const IDA_MAX := 0x8000_0000

  // -------------------------------------------------------------- id pool

  /** ida_simple_get: the smallest free id from start on; an end of zero means no upper bound. */
  function LowestFree(ids: set<nat>, start: nat, end: nat): (r: Option<nat>)
    ensures r.Some? ==> start <= r.value < Limit(end) && r.value !in ids
    ensures r.Some? ==> forall i :: start <= i < r.value ==> i in ids
    ensures r.None? ==> forall i :: start <= i < Limit(end) ==> i in ids
    decreases Limit(end) - start
  {
    if start >= Limit(end) then None
    else if start !in ids then Some(start)
    else LowestFree(ids, start + 1, end)
  }

  function Limit(end: nat): nat {
    if end == 0 then IDA_MAX else end
  }

  /** An id is handed out exactly when one is free in the range, which does not include its end; it is the least. */
  lemma PoolRange(ids: set<nat>, start: nat, end: nat, id: nat)
    ensures (LowestFree(ids, start, end) == Some(id) <==>
             && start <= id && (if end == 0 then id < 0x8000_0000 else id < end) && id !in ids
             && forall i :: start <= i < id ==> i in ids)
  {
  }

  /** gb_connection_create passes num_cports - 1 as the end of the range, so that the last CPort of a device with at
      least two is never handed out, and every other is once those below it are taken. */
  lemma LastIsNeverUsed(ids: set<nat>, numCports: nat, id: nat)
    requires numCports >= 2
    ensures (LowestFree(ids, 0, numCports - 1) == Some(id) <==>
             id < numCports - 1 && id !in ids && forall i: nat :: i < id ==> i in ids)
  {
    PoolRange(ids, 0, numCports - 1, id);
  }

  // ------------------------------------------------------------ invariant

  ghost predicate Distinct(cs: seq<Connection>) {
    forall i, j :: 0 <= i < j < |cs| ==> !Clash(cs[i], cs[j])
  }

  /** Two connections that may not live side by side. */
  predicate Clash(a: Connection, b: Connection) {
    || a.hdCport == b.hdCport
    || (a.home.Some? && b.home.Some? && a.home.value.intf == b.home.value.intf && a.cport == b.cport)
  }

  ghost function HdIds(cs: seq<Connection>): set<nat> {
    set i | 0 <= i < |cs| :: cs[i].hdCport
  }

  ghost predicate DistinctBundles(bs: seq<Bundle>) {
    forall i, j :: 0 <= i < j < |bs| ==> bs[i].home != bs[j].home
  }

  predicate HasHome(bs: seq<Bundle>, home: Home) {
    exists i :: 0 <= i < |bs| && bs[i].home == home
  }

  /** What holds at every call boundary. */
  ghost predicate Consistent(cs: seq<Connection>, ids: set<nat>, bs: seq<Bundle>) {
    && Distinct(cs)
    && ids == HdIds(cs)
    && DistinctBundles(bs)
    && (forall i :: 0 <= i < |cs| && cs[i].home.Some? ==> HasHome(bs, cs[i].home.value))
  }

  // -------------------------------------------------------------- removing

  /** Connections outside one bundle (or, without a bundle number, outside one interface). */
  function Outside(cs: seq<Connection>, intf: nat, bundle: Option<nat>): seq<Connection> {
    if cs == [] then []
    else (if In(cs[0], intf, bundle) then [] else [cs[0]]) + Outside(cs[1..], intf, bundle)
  }

  predicate In(c: Connection, intf: nat, bundle: Option<nat>) {
    && c.home.Some? && c.home.value.intf == intf
    && (bundle.Some? ==> c.home.value.bundle == bundle.value)
  }

  lemma {:induction false} OutsideRemove(cs: seq<Connection>, k: nat, intf: nat, bundle: Option<nat>)
    requires k < |cs| && In(cs[k], intf, bundle)
    ensures Outside(RemoveAt(cs, k), intf, bundle) == Outside(cs, intf, bundle)
  {
    if k == 0 {
      assert RemoveAt(cs, k) == cs[1..];
    } else {
      OutsideRemove(cs[1..], k - 1, intf, bundle);
      assert RemoveAt(cs, k) == [cs[0]] + RemoveAt(cs[1..], k - 1);
    }
  }

  lemma {:induction false} OutsideNone(cs: seq<Connection>, intf: nat, bundle: Option<nat>)
    requires forall i :: 0 <= i < |cs| ==> !In(cs[i], intf, bundle)
    ensures Outside(cs, intf, bundle) == cs
  {
    if cs != [] {
      OutsideNone(cs[1..], intf, bundle);
    }
  }

  lemma {:induction false} OutsideTwice(cs: seq<Connection>, intf: nat, bundle: nat)
    ensures Outside(Outside(cs, intf, Some(bundle)), intf, None) == Outside(cs, intf, None)
  {
    if cs != [] {
      OutsideTwice(cs[1..], intf, bundle);
      var rest := Outside(cs[1..], intf, Some(bundle));
      assert [] + rest == rest && ([cs[0]] + rest)[1..] == rest;
    }
  }

  lemma AddKeeps(cs: seq<Connection>, ids: set<nat>, bs: seq<Bundle>, c: Connection)
    requires Consistent(cs, ids, bs) && c.hdCport !in ids
    requires c.home.Some? ==> HasHome(bs, c.home.value)
    requires c.home.Some? ==> forall d :: d in cs && In(d, c.home.value.intf, None) ==> d.cport != c.cport
    ensures Consistent([c] + cs, ids + {c.hdCport}, bs)
  {
    var all := [c] + cs;
    forall i, j | 0 <= i < j < |all| ensures !Clash(all[i], all[j]) {
      if i == 0 {
        assert all[j] in cs && all[j].hdCport in HdIds(cs);
      }
    }
    assert ids + {c.hdCport} == HdIds(all) by {
      assert forall i :: 0 <= i < |cs| ==> all[i + 1] == cs[i];
      assert all[0] == c;
    }
  }

  lemma RemoveKeeps(cs: seq<Connection>, ids: set<nat>, bs: seq<Bundle>, k: nat)
    requires Consistent(cs, ids, bs) && k < |cs|
    ensures Consistent(RemoveAt(cs, k), ids - {cs[k].hdCport}, bs)
  {
    var r := RemoveAt(cs, k);
    assert ids - {cs[k].hdCport} == HdIds(r) by {
      forall id | id in ids - {cs[k].hdCport} ensures id in HdIds(r) {
        var i :| 0 <= i < |cs| && cs[i].hdCport == id;
        assert r[if i < k then i else i - 1].hdCport == id;
      }
    }
  }

  // ------------------------------------------------------------- the device

  /** Outcomes of the kernel services a creation asks for. */
  datatype Services = Services(alloc: bool, workqueue: bool, fifo: bool, deviceAdd: bool)

  predicate AllGranted(s: Services) {
    s.alloc && s.workqueue && s.fifo && s.deviceAdd
  }

  class Host {
    const numCports: nat
    var connections: seq<Connection>    // hd->connections, newest first
    var ids: set<nat>                   // hd->cport_id_map
    var bundles: seq<Bundle>            // bundles of all interfaces, newest first

    ghost predicate Valid()
      reads this
    {
      Consistent(connections, ids, bundles)
    }

    /** Every allocated id is one that the device has. */
    ghost predicate Bounded()
      reads this
    {
      forall id :: id in ids ==> id < numCports
    }

    constructor (numCports: nat)
      ensures Valid() && Bounded() && this.numCports == numCports && connections == [] && ids == {} && bundles == []
    {
      this.numCports := numCports;
      connections, ids, bundles := [], {}, [];
    }

    /** gb_connection_intf_find. */
    method IntfFind(intf: nat, cport: nat) returns (found: bool)
      ensures (found <==> exists i :: 0 <= i < |connections|
                            && In(connections[i], intf, None) && connections[i].cport == cport)
    {
      for i := 0 to |connections|
        invariant forall k :: 0 <= k < i ==> !(In(connections[k], intf, None) && connections[k].cport == cport)
      {
        if In(connections[i], intf, None) && connections[i].cport == cport {
          return true;
        }
      }
      found := false;
    }

    /** gb_connection_hd_find: where greybus_data_rcvd delivers. */
    method HdFind(cport: nat) returns (r: Option<Connection>)
      requires Valid()
      ensures r.Some? <==> cport in ids
      ensures r.Some? ==> r.value in connections && r.value.hdCport == cport
      ensures forall c :: c in connections && c.hdCport == cport ==> r == Some(c)
    {
      for i := 0 to |connections|
        invariant forall k :: 0 <= k < i ==> connections[k].hdCport != cport
      {
        if connections[i].hdCport == cport {
          return Some(connections[i]);
        }
      }
      r := None;
    }

    /**
     gb_connection_create_range.  It succeeds exactly when the CPort is not yet used on the
     interface, an id is free and every kernel service is granted, and then takes the smallest free
     id; on every failure path the id is back in the pool and nothing has changed.
     */
    method CreateRange(home: Option<Home>, cport: nat, protocol: nat, start: nat, end: nat, s: Services)
      returns (r: Option<Connection>)
      requires Valid()
      requires home.Some? ==> HasHome(bundles, home.value)
      modifies this`connections, this`ids
      ensures Valid()
      ensures old(Bounded()) && Limit(end) <= numCports ==> Bounded()
      ensures r.Some? <==>
        && AllGranted(s)
        && old(LowestFree(ids, start, end)).Some?
        && (home.Some? ==> forall c :: c in old(connections) && In(c, home.value.intf, None) ==> c.cport != cport)
      ensures r.None? ==> connections == old(connections) && ids == old(ids)
      ensures r.Some? ==>
        && r.value == Connection(old(LowestFree(ids, start, end)).value, home, cport, protocol)
        && connections == [r.value] + old(connections)
        && ids == old(ids) + {r.value.hdCport}
    {
      if home.Some? {
        var found := IntfFind(home.value.intf, cport);
        if found {
          return None;
        }
      }
      var id := LowestFree(ids, start, end);
      if id.None? {
        return None;
      }
      ids := ids + {id.value};
      if !AllGranted(s) {
        ids := ids - {id.value};           // err_remove_ida
        return None;
      }
      var c := Connection(id.value, home, cport, protocol);
      AddKeeps(connections, old(ids), bundles, c);
      connections := [c] + connections;
      r := Some(c);
    }

    /** gb_connection_destroy, of the connection at position k of the host's list. */
    method DestroyConnection(k: nat)
      requires Valid() && k < |connections|
      modifies this`connections, this`ids
      ensures Valid() && (old(Bounded()) ==> Bounded())
      ensures connections == RemoveAt(old(connections), k)
      ensures ids == old(ids) - {old(connections)[k].hdCport}
    {
      RemoveKeeps(connections, ids, bundles, k);
      var c := connections[k];
      connections := RemoveAt(connections, k);
      ids := ids - {c.hdCport};
    }

    /** gb_bundle_find. */
    method BundleFind(home: Home) returns (found: bool)
      ensures found <==> HasHome(bundles, home)
    {
      for i := 0 to |bundles|
        invariant forall k :: 0 <= k < i ==> bundles[k].home != home
      {
        if bundles[i].home == home {
          return true;
        }
      }
      found := false;
    }

    /** gb_bundle_create. */
    method CreateBundle(home: Home, cls: nat, granted: bool) returns (ok: bool)
      requires Valid()
      modifies this`bundles
      ensures Valid()
      ensures ok <==> granted && !old(HasHome(bundles, home))
      ensures bundles == if ok then [Bundle(home, cls)] + old(bundles) else old(bundles)
    {
      var found := BundleFind(home);
      ok := !found && granted;
      if ok {
        ghost var was := bundles;
        bundles := [Bundle(home, cls)] + bundles;
        forall h: Home | HasHome(was, h) ensures HasHome(bundles, h) {
          var i :| 0 <= i < |was| && was[i].home == h;
          assert bundles[i + 1].home == h;
        }
      }
    }

    /** gb_bundle_destroy, of the bundle at position b.  The source takes the bundle off its list before its
        connections; nothing looks in between. */
    method DestroyBundle(b: nat)
      requires Valid() && b < |bundles|
      modifies this
      ensures Valid() && (old(Bounded()) ==> Bounded())
      ensures bundles == RemoveAt(old(bundles), b)
      ensures connections == Outside(old(connections), old(bundles)[b].home.intf, Some(old(bundles)[b].home.bundle))
    {
      var home := bundles[b].home;
      var i := 0;
      while i < |connections|
        invariant Valid() && bundles == old(bundles) && i <= |connections| && (old(Bounded()) ==> Bounded())
        invariant forall k :: 0 <= k < i ==> !In(connections[k], home.intf, Some(home.bundle))
        invariant Outside(connections, home.intf, Some(home.bundle))
               == Outside(old(connections), home.intf, Some(home.bundle))
        decreases |connections| - i
      {
        if In(connections[i], home.intf, Some(home.bundle)) {
          OutsideRemove(connections, i, home.intf, Some(home.bundle));
          DestroyConnection(i);
        } else {
          i := i + 1;
        }
      }
      OutsideNone(connections, home.intf, Some(home.bundle));
      bundles := RemoveAt(bundles, b);
      forall k | 0 <= k < |connections| && connections[k].home.Some?
        ensures HasHome(bundles, connections[k].home.value)
      {
        var j :| 0 <= j < |old(bundles)| && old(bundles)[j].home == connections[k].home.value;
        assert j != b;
        assert bundles[if j < b then j else j - 1] == old(bundles)[j];
      }
    }
  }

  // ------------------------------------------------------------ a single CPort

  /** With a single CPort the upper bound num_cports - 1 is zero, which means no bound: the second
      creation gets an id that the device does not have. */
  lemma SingleCportOverflows()
    ensures LowestFree({0}, 0, 1 - 1) == Some(1)
  {
  }

  /** The ids that gb_connection_create hands out are below num_cports, whatever ids are taken, exactly when there are
      at least two CPorts. */
  lemma RangeIsSafe(numCports: nat)
    requires numCports >= 1
    ensures numCports >= 2 <==> forall ids: set<nat> :: HandsOutOwn(ids, numCports)
  {
    SingleCportOverflows();
    if numCports == 1 {
      assert !HandsOutOwn({0}, numCports);
    }
  }

  /** With these ids taken, gb_connection_create hands out an id that the device has, or none. */
  predicate HandsOutOwn(ids: set<nat>, numCports: nat)
    requires numCports >= 1
  {
    LowestFree(ids, 0, numCports - 1).Some? ==> LowestFree(ids, 0, numCports - 1).value < numCports
  }
}
