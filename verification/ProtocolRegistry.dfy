/** The global list of registered protocols. */
module ProtocolRegistry {
  import opened Common
  import opened Errno

  const EEXIST: int := -17

  datatype Key = Key(id: byte, major: byte, minor: byte)

  /** A registered struct gb_protocol. */
  datatype Entry = Entry(key: Key, count: byte)

  // ---------------------------------------------------------------- order

  /** The list order: id upwards, then major downwards, then minor downwards. */
  predicate Before(a: Key, b: Key) {
    || a.id < b.id
    || (a.id == b.id && a.major > b.major)
    || (a.id == b.id && a.major == b.major && a.minor > b.minor)
  }

  ghost predicate Sorted(list: seq<Entry>) {
    forall i, j :: 0 <= i < j < |list| ==> Before(list[i].key, list[j].key)
  }

  /** The list as a plain map from versions to use counts. */
  function AsMap(list: seq<Entry>): map<Key, byte> {
    if list == [] then map[] else AsMap(list[..|list| - 1])[list[|list| - 1].key := list[|list| - 1].count]
  }

  lemma {:induction false} AsMapKeys(list: seq<Entry>)
    ensures forall k :: k in AsMap(list) <==> exists i :: 0 <= i < |list| && list[i].key == k
    ensures Sorted(list) ==> forall i :: 0 <= i < |list| ==> AsMap(list)[list[i].key] == list[i].count
  {
    if list != [] {
      var rest := list[..|list| - 1];
      AsMapKeys(rest);
      assert forall i :: 0 <= i < |rest| ==> rest[i] == list[i];
    }
  }

  /** Two sorted lists with the same map are the same list's worth of entries. */
  lemma AsMapExact(list: seq<Entry>, m: map<Key, byte>)
    requires Sorted(list)
    requires forall i :: 0 <= i < |list| ==> list[i].key in m && m[list[i].key] == list[i].count
    requires forall k :: k in m ==> exists i :: 0 <= i < |list| && list[i].key == k
    ensures AsMap(list) == m
  {
    AsMapKeys(list);
  }

  /** The first entry for an id is its newest registered version. */
  lemma FirstIsNewest(list: seq<Entry>, i: nat, j: nat)
    requires Sorted(list) && i < |list| && j < |list| && list[i].key.id == list[j].key.id
    requires forall k :: 0 <= k < i ==> list[k].key.id != list[i].key.id
    ensures list[j].key.major < list[i].key.major
      || (list[j].key.major == list[i].key.major && list[j].key.minor <= list[i].key.minor)
  {
  }

  // ----------------------------------------------------------- list updates

  function InsertAt(list: seq<Entry>, k: nat, e: Entry): (r: seq<Entry>)
    requires k <= |list|
    ensures Inserted(list, k, e, r)
  {
    list[..k] + [e] + list[k..]
  }

  /** r is list with e at position k. */
  ghost predicate Inserted(list: seq<Entry>, k: nat, e: Entry, r: seq<Entry>) {
    && k <= |list| && |r| == |list| + 1 && r[k] == e
    && forall i :: 0 <= i < |r| && i != k ==> r[i] == list[if i < k then i else i - 1]
  }

  lemma InsertSorted(list: seq<Entry>, k: nat, e: Entry)
    requires Sorted(list) && k <= |list|
    requires forall i :: 0 <= i < k ==> Before(list[i].key, e.key)
    requires forall i :: k <= i < |list| ==> Before(e.key, list[i].key)
    ensures Sorted(InsertAt(list, k, e))
  {
  }

  lemma InsertedCovers(list: seq<Entry>, k: nat, e: Entry, r: seq<Entry>, i: nat)
    requires Inserted(list, k, e, r) && i < |list|
    ensures exists j :: 0 <= j < |r| && r[j] == list[i]
  {
    var j := if i < k then i else i + 1;
    assert r[j] == list[i];
  }

  lemma InsertMap(list: seq<Entry>, k: nat, e: Entry, r: seq<Entry>)
    requires Sorted(list) && Inserted(list, k, e, r) && Sorted(r)
    ensures AsMap(r) == AsMap(list)[e.key := e.count]
  {
    var m := AsMap(list)[e.key := e.count];
    AsMapKeys(list);
    forall i | 0 <= i < |r| ensures r[i].key in m && m[r[i].key] == r[i].count {
      if i != k {
        SortedApart(r, i, k);
      }
    }
    forall key | key in m ensures exists i :: 0 <= i < |r| && r[i].key == key {
      if key != e.key {
        var i :| 0 <= i < |list| && list[i].key == key;
        InsertedCovers(list, k, e, r, i);
      }
    }
    AsMapExact(r, m);
  }

  lemma InsertKeeps(list: seq<Entry>, k: nat, e: Entry)
    requires Sorted(list) && k <= |list|
    requires forall i :: 0 <= i < k ==> Before(list[i].key, e.key)
    requires forall i :: k <= i < |list| ==> Before(e.key, list[i].key)
    ensures Sorted(InsertAt(list, k, e))
    ensures AsMap(InsertAt(list, k, e)) == AsMap(list)[e.key := e.count]
  {
    InsertSorted(list, k, e);
    InsertMap(list, k, e, InsertAt(list, k, e));
  }

  lemma SortedApart(list: seq<Entry>, i: nat, j: nat)
    requires Sorted(list) && i < |list| && j < |list| && i != j
    ensures list[i].key != list[j].key
  {
  }

  lemma RemoveKeeps(list: seq<Entry>, k: nat)
    requires Sorted(list) && k < |list|
    ensures Sorted(RemoveAt(list, k))
    ensures AsMap(RemoveAt(list, k)) == AsMap(list) - {list[k].key}
  {
    var r := RemoveAt(list, k);
    assert Sorted(r) by {
      forall i, j | 0 <= i < j < |r| ensures Before(r[i].key, r[j].key) {
        assert r[i] == list[if i < k then i else i + 1] && r[j] == list[if j < k then j else j + 1];
      }
    }
    RemoveMap(list, k, r);
  }

  lemma RemoveMap(list: seq<Entry>, k: nat, r: seq<Entry>)
    requires Sorted(list) && k < |list| && r == RemoveAt(list, k) && Sorted(r)
    ensures AsMap(r) == AsMap(list) - {list[k].key}
  {
    var m := AsMap(list) - {list[k].key};
    AsMapKeys(list);
    forall i | 0 <= i < |r| ensures r[i].key in m && m[r[i].key] == r[i].count {
      var i' := if i < k then i else i + 1;
      assert r[i] == list[i'];
      SortedApart(list, i', k);
    }
    forall key | key in m ensures exists i :: 0 <= i < |r| && r[i].key == key {
      var i :| 0 <= i < |list| && list[i].key == key;
      assert r[if i < k then i else i - 1].key == key;
    }
    AsMapExact(r, m);
  }

  lemma CountKeeps(list: seq<Entry>, k: nat, count: byte)
    requires Sorted(list) && k < |list|
    ensures Sorted(list[k := list[k].(count := count)])
    ensures AsMap(list[k := list[k].(count := count)]) == AsMap(list)[list[k].key := count]
  {
    var r := list[k := list[k].(count := count)];
    assert forall i :: 0 <= i < |r| ==> r[i].key == list[i].key;
    AsMapKeys(list);
    AsMapExact(r, AsMap(list)[list[k].key := count]);
  }

  // ------------------------------------------------------------- the registry

  class Registry {
    var protocols: seq<Entry>           // gb_protocols
    ghost var holders: map<Key, nat>    // successful gets not yet put, for registered protocols

    ghost predicate Valid()
      reads this
    {
      Sorted(protocols) && holders.Keys == AsMap(protocols).Keys
    }

    /** Every use count is the number of holders. */
    ghost predicate Exact()
      reads this
      requires Valid()
    {
      forall k :: k in holders ==> AsMap(protocols)[k] == holders[k]
    }

    constructor ()
      ensures Valid() && protocols == [] && Exact()
    {
      protocols, holders := [], map[];
    }

    /** gb_protocol_find with its early exits: the position of the key, or the length of the list.  It
        agrees with a lookup in the plain map. */
    method Find(key: Key) returns (k: nat)
      requires Valid()
      ensures k <= |protocols|
      ensures k < |protocols| <==> key in AsMap(protocols)
      ensures k < |protocols| ==> protocols[k].key == key && AsMap(protocols)[key] == protocols[k].count
    {
      AsMapKeys(protocols);
      var i := 0;
      while i < |protocols|
        invariant 0 <= i <= |protocols|
        invariant forall j :: 0 <= j < i ==> Before(protocols[j].key, key)
      {
        var p := protocols[i].key;
        if p.id < key.id {
        } else if p.id > key.id {
          return |protocols|;
        } else if p.major > key.major {
        } else if p.major < key.major {
          return |protocols|;
        } else if p.minor > key.minor {
        } else if p.minor < key.minor {
          return |protocols|;
        } else {
          return i;
        }
        i := i + 1;
      }
      k := |protocols|;
    }

    /** The search loop of __gb_protocol_register: a version that is there already, or the place for it. */
    method Place(key: Key) returns (k: nat, there: bool)
      requires Valid()
      ensures k <= |protocols|
      ensures there <==> key in AsMap(protocols)
      ensures !there ==> forall i :: 0 <= i < k ==> Before(protocols[i].key, key)
      ensures !there ==> forall i :: k <= i < |protocols| ==> Before(key, protocols[i].key)
    {
      AsMapKeys(protocols);
      k := 0;
      while k < |protocols| && Before(protocols[k].key, key)
        invariant k <= |protocols|
        invariant forall j :: 0 <= j < k ==> Before(protocols[j].key, key)
      {
        k := k + 1;
      }
      there := k < |protocols| && protocols[k].key == key;
    }

    /** __gb_protocol_register: a new protocol enters with its count of zero, an existing version is refused. */
    method Register(key: Key) returns (ret: int)
      requires Valid()
      modifies this
      ensures Valid()
      ensures ret == (if key in old(AsMap(protocols)) then EEXIST else 0)
      ensures ret != 0 ==> protocols == old(protocols) && holders == old(holders)
      ensures ret == 0 ==> AsMap(protocols) == old(AsMap(protocols))[key := 0] && holders == old(holders)[key := 0]
      ensures old(Exact()) ==> Exact()
    {
      var k, registered := Place(key);
      if registered {
        return EEXIST;
      }
      InsertKeeps(protocols, k, Entry(key, 0));
      protocols := InsertAt(protocols, k, Entry(key, 0));
      holders := holders[key := 0];
      ret := 0;
    }

    /** gb_protocol_deregister: succeeds exactly for a registered version with a zero count. */
    method Deregister(key: Key) returns (ok: bool)
      requires Valid()
      modifies this
      ensures Valid()
      ensures ok <==> key in old(AsMap(protocols)) && old(AsMap(protocols))[key] == 0
      ensures ok ==> AsMap(protocols) == old(AsMap(protocols)) - {key} && holders == old(holders) - {key}
      ensures !ok ==> protocols == old(protocols) && holders == old(holders)
      ensures old(Exact()) ==> Exact() && (ok ==> old(holders)[key] == 0)
    {
      var k := Find(key);
      ok := k < |protocols| && protocols[k].count == 0;
      if ok {
        RemoveKeeps(protocols, k);
        protocols := RemoveAt(protocols, k);
        holders := holders - {key};
      }
    }

    /** gb_protocol_get: the count saturates at 255, so it goes on being the number of holders exactly
        when it was below 255. */
    method Get(key: Key, moduleAlive: bool) returns (ok: bool)
      requires Valid()
      modifies this
      ensures Valid()
      ensures ok <==> moduleAlive && key in old(AsMap(protocols))
      ensures !ok ==> protocols == old(protocols) && holders == old(holders)
      ensures ok ==>
        && holders == old(holders)[key := old(holders)[key] + 1]
        && AsMap(protocols) == old(AsMap(protocols))[key := Saturated(old(AsMap(protocols))[key])]
      ensures old(Exact()) && ok ==> (Exact() <==> old(AsMap(protocols))[key] < 255)
    {
      var k := Find(key);
      ok := moduleAlive && k < |protocols|;
      if ok {
        var count := Saturated(protocols[k].count);
        CountKeeps(protocols, k, count);
        protocols := protocols[k := protocols[k].(count := count)];
        holders := holders[key := holders[key] + 1];
        assert key in holders;
        assert old(Exact()) ==> (AsMap(protocols)[key] == holders[key] <==> old(AsMap(protocols))[key] < 255);
      }
    }

    /** gb_protocol_put; a put without a holder leaves the count at zero. */
    method Put(key: Key)
      requires Valid()
      modifies this
      ensures Valid()
      ensures key !in old(holders) ==> protocols == old(protocols) && holders == old(holders)
      ensures key in old(holders) ==>
        && holders == old(holders)[key := if old(holders)[key] > 0 then old(holders)[key] - 1 else 0]
        && AsMap(protocols) == old(AsMap(protocols))[key := Lowered(old(AsMap(protocols))[key])]
      ensures old(Exact()) ==> Exact()
    {
      var k := Find(key);
      if k < |protocols| {
        var count := Lowered(protocols[k].count);
        CountKeeps(protocols, k, count);
        protocols := protocols[k := protocols[k].(count := count)];
        holders := holders[key := if holders[key] > 0 then holders[key] - 1 else 0];
      }
    }
  }

  function Saturated(count: byte): byte {
    if count != 255 then count + 1 else count
  }

  function Lowered(count: byte): byte {
    if count != 0 then count - 1 else count
  }

  // -------------------------------------------------------- too many holders

  function Capped(n: nat): byte {
    if n <= 255 then n else 255
  }

  /** h holders take a newly registered protocol and all but one give it back. */
  method TakeAndReturn(r: Registry, key: Key, h: nat)
    requires r.Valid() && key !in AsMap(r.protocols) && h >= 1
    modifies r
    ensures r.Valid() && key in r.holders && r.holders[key] == 1
    ensures AsMap(r.protocols)[key] == if h <= 255 then 1 else 0
  {
    var _ := r.Register(key);
    for i := 0 to h
      invariant r.Valid() && key in r.holders && r.holders[key] == i && AsMap(r.protocols)[key] == Capped(i)
    {
      var _ := r.Get(key, true);
    }
    for i := 0 to h - 1
      invariant r.Valid() && key in r.holders && r.holders[key] == h - i
      invariant AsMap(r.protocols)[key] == if Capped(h) >= i then Capped(h) - i else 0
    {
      r.Put(key);
    }
  }

  /** The last of h holders keeps the protocol from being deregistered exactly when h was at most 255: with more, the
      count saturates and deregistration succeeds under a live holder. */
  method DeregisterUnderHolder(r: Registry, key: Key, h: nat) returns (ok: bool)
    requires r.Valid() && key !in AsMap(r.protocols) && h >= 1
    modifies r
    ensures r.Valid()
    ensures ok <==> h > 255
    ensures ok ==> key !in AsMap(r.protocols)
    ensures !ok ==> key in r.holders && r.holders[key] == 1
  {
    TakeAndReturn(r, key, h);
    ok := r.Deregister(key);
  }
}
