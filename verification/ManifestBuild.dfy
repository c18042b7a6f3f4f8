/** The pass over a scanned manifest that builds bundles and connections, or takes all back. */
module ManifestBuild {
  import opened Common
  import opened HostDevice
  import opened ManifestDemand

  // ---------------------------------------------------------- what is built

  /** The interface has a connection for this CPort descriptor. */
  ghost predicate Served(cs: seq<Connection>, intf: nat, d: Item)
    requires d.CportItem?
  {
    exists i :: 0 <= i < |cs| && cs[i].home == Some(Home(intf, d.bundle)) && cs[i].cport == d.id
             && cs[i].protocol == d.protocol
  }

  /** A served descriptor is served by exactly one connection. */
  lemma ServedOnce(cs: seq<Connection>, ids: set<nat>, bs: seq<Bundle>, intf: nat, d: Item)
    requires Consistent(cs, ids, bs) && d.CportItem? && Served(cs, intf, d)
    ensures exists i ::
      && 0 <= i < |cs| && cs[i].home == Some(Home(intf, d.bundle)) && cs[i].cport == d.id
      && (forall j :: 0 <= j < |cs| && In(cs[j], intf, None) && cs[j].cport == d.id ==> j == i)
  {
  }

  /** Some descriptor calls for this connection. */
  ghost predicate Asked(c: Connection, intf: nat, items: seq<Item>) {
    exists d :: d in items && Wanted(d) && c.home == Some(Home(intf, d.bundle)) && c.cport == d.id
             && c.protocol == d.protocol
  }

  /** cs is was with connections in front that the descriptors call for. */
  ghost predicate Extends(cs: seq<Connection>, was: seq<Connection>, intf: nat, items: seq<Item>) {
    |cs| >= |was| && cs[|cs| - |was|..] == was
    && forall i :: 0 <= i < |cs| - |was| ==> Asked(cs[i], intf, items)
  }

  lemma {:induction false} ExtendsOutside(cs: seq<Connection>, was: seq<Connection>, intf: nat, items: seq<Item>)
    requires Extends(cs, was, intf, items)
    ensures Outside(cs, intf, None) == Outside(was, intf, None)
    decreases |cs|
  {
    if |cs| == |was| {
      assert cs == was;
    } else {
      var rest := cs[1..];
      assert rest[|rest| - |was|..] == cs[|cs| - |was|..];
      assert Asked(cs[0], intf, items);
      ExtendsOutside(rest, was, intf, items);
    }
  }

  lemma ExtendsTransitive(a: seq<Connection>, b: seq<Connection>, c: seq<Connection>, intf: nat, items: seq<Item>,
                          more: seq<Item>)
    requires Extends(c, b, intf, items) && Extends(b, a, intf, more)
    requires forall d :: d in items ==> d in more
    ensures Extends(c, a, intf, more)
  {
  }

  // ------------------------------------------------------------- CPorts

  /** With two CPorts or more no id beyond the device's has been handed out. */
  ghost predicate StillBounded(before: bool, h: Host)
    reads h
  {
    h.numCports >= 2 && before ==> h.Bounded()
  }

  /** How many connections gb_connection_create can still make. */
  ghost function Room(h: Host): nat
    requires h.numCports >= 1
    reads h
  {
    |Free(h.ids, Limit(h.numCports - 1))|
  }

  /** The body of gb_manifest_parse_cports for one descriptor of the bundle. */
  method SetUpCport(h: Host, intf: nat, bundle: nat, d: Item, s: Services) returns (ok: bool)
    requires h.Valid() && h.numCports >= 1 && HasHome(h.bundles, Home(intf, bundle)) && For(d, bundle)
    modifies h`connections, h`ids
    ensures h.Valid() && StillBounded(old(h.Bounded()), h)
    ensures (ok <==> && Sane(d)
                     && (Wanted(d) ==> !old(Used(h.connections, intf, d.id)) && AllGranted(s) && old(Room(h)) >= 1))
    ensures !ok || !Wanted(d) ==> h.connections == old(h.connections) && h.ids == old(h.ids)
    ensures ok && Wanted(d) ==> Added(h.connections, old(h.connections), intf, d) && Room(h) == old(Room(h)) - 1
  {
    if d.id > CPORT_ID_MAX || (d.id == CONTROL) != (d.protocol == CONTROL) {
      return false;
    }
    if d.id == CONTROL {
      return true;
    }
    LowestIsFree(h.ids, h.numCports - 1);
    var r := h.CreateRange(Some(Home(intf, bundle)), d.id, d.protocol, 0, h.numCports - 1, s);
    ok := r.Some?;
  }

  /** cs is was with one connection in front, which serves d. */
  ghost predicate Added(cs: seq<Connection>, was: seq<Connection>, intf: nat, d: Item)
    requires d.CportItem?
  {
    && |cs| == |was| + 1 && cs[1..] == was
    && cs[0].home == Some(Home(intf, d.bundle)) && cs[0].cport == d.id && cs[0].protocol == d.protocol
  }

  /** After the first i descriptors: what has been built for the bundle, and what that leaves to be done. */
  ghost predicate CportProgress(cs: seq<Connection>, was: seq<Connection>, intf: nat, bundle: nat,
                                items: seq<Item>, i: nat)
    requires i <= |items|
  {
    && Extends(cs, was, intf, items)
    && (forall d :: d in items[..i] && Asks(d, {bundle}) ==> Served(cs, intf, d))
    && (forall x :: Used(cs, intf, x)
          <==> Used(was, intf, x) || exists d :: d in items[..i] && Asks(d, {bundle}) && d.id == x)
  }

  lemma ProgressSkips(cs: seq<Connection>, was: seq<Connection>, intf: nat, bundle: nat, items: seq<Item>, i: nat)
    requires i < |items| && CportProgress(cs, was, intf, bundle, items, i) && !Asks(items[i], {bundle})
    ensures CportProgress(cs, was, intf, bundle, items, i + 1)
  {
  }

  lemma ProgressAdds(cs: seq<Connection>, cs': seq<Connection>, was: seq<Connection>, intf: nat, bundle: nat,
                     items: seq<Item>, i: nat)
    requires i < |items| && CportProgress(cs, was, intf, bundle, items, i) && Asks(items[i], {bundle})
    requires Added(cs', cs, intf, items[i])
    ensures CportProgress(cs', was, intf, bundle, items, i + 1)
  {
  }

  lemma ProgressGains(cs: seq<Connection>, was: seq<Connection>, intf: nat, bundle: nat, items: seq<Item>)
    requires CportProgress(cs, was, intf, bundle, items, |items|)
    ensures Gained(was, cs, intf, items, bundle)
    ensures forall d :: d in items && For(d, bundle) && Wanted(d) ==> Served(cs, intf, d)
  {
    assert items[..|items|] == items;
    forall x ensures Used(cs, intf, x) <==> Used(was, intf, x) || Copies(items, {bundle}, x) >= 1 {
      CopiesWitness(items, {bundle}, x);
    }
  }

  /** Progress, with the demands still open weighed against the room that is left. */
  ghost predicate CportState(cs: seq<Connection>, room: int, was: seq<Connection>, room0: int, intf: nat, bundle: nat,
                             items: seq<Item>, i: nat, grant: (nat, nat) -> Services)
    requires i <= |items|
  {
    && CportProgress(cs, was, intf, bundle, items, i)
    && (CportsReady(items, {bundle}, intf, was, room0, grant)
        <==> CportsReady(items[i..], {bundle}, intf, cs, room, grant))
    && room - Total(items[i..], {bundle}) == room0 - Total(items, {bundle})
  }

  lemma StateStays(cs: seq<Connection>, room: int, was: seq<Connection>, room0: int, intf: nat, bundle: nat,
                   items: seq<Item>, i: nat, grant: (nat, nat) -> Services)
    requires i < |items| && CportState(cs, room, was, room0, intf, bundle, items, i, grant)
    requires !Asks(items[i], {bundle}) && (For(items[i], bundle) ==> Sane(items[i]))
    ensures CportState(cs, room, was, room0, intf, bundle, items, i + 1, grant)
  {
    assert items[i..] == [items[i]] + items[i + 1..];
    ProgressSkips(cs, was, intf, bundle, items, i);
    if For(items[i], bundle) {
      CportsControl(items[i], items[i + 1..], bundle, intf, cs, room, grant);
    } else {
      CportsSkip(items[i], items[i + 1..], bundle, intf, cs, room, grant);
    }
  }

  lemma StateAdds(cs: seq<Connection>, room: int, cs': seq<Connection>, was: seq<Connection>, room0: int, intf: nat,
                  bundle: nat, items: seq<Item>, i: nat, grant: (nat, nat) -> Services)
    requires i < |items| && CportState(cs, room, was, room0, intf, bundle, items, i, grant)
    requires Asks(items[i], {bundle}) && Fits(items[i], intf, cs, grant) && room >= 1 && Added(cs', cs, intf, items[i])
    ensures CportState(cs', room - 1, was, room0, intf, bundle, items, i + 1, grant)
  {
    assert items[i..] == [items[i]] + items[i + 1..];
    assert cs' == [cs'[0]] + cs;
    ProgressAdds(cs, cs', was, intf, bundle, items, i);
    CportsTake(items[i], items[i + 1..], bundle, intf, cs, cs'[0], room, grant);
  }

  /** gb_manifest_parse_cports: the number of CPorts set up for the bundle, or 0 on any error.  It is positive
      exactly when the bundle has a CPort descriptor and all of them can be set up. */
  method ParseCports(h: Host, intf: nat, bundle: nat, items: seq<Item>, grant: (nat, nat) -> Services)
    returns (count: nat, rest: seq<Item>)
    requires h.Valid() && h.numCports >= 1 && HasHome(h.bundles, Home(intf, bundle))
    modifies h`connections, h`ids
    ensures h.Valid() && StillBounded(old(h.Bounded()), h)
    ensures Extends(h.connections, old(h.connections), intf, items)
    ensures (count > 0 <==> && HasCport(items, bundle)
                            && CportsReady(items, {bundle}, intf, old(h.connections), old(Room(h)), grant))
    ensures (count > 0 ==>
             && rest == Rest(items, bundle)
             && (forall d :: d in items && For(d, bundle) && Wanted(d) ==> Served(h.connections, intf, d))
             && Gained(old(h.connections), h.connections, intf, items, bundle)
             && Room(h) == old(Room(h)) - Total(items, {bundle}))
  {
    count, rest := 0, [];
    var i := 0;
    assert items[0..] == items;
    while i < |items|
      invariant 0 <= i <= |items| && h.Valid() && StillBounded(old(h.Bounded()), h)
      invariant CportState(h.connections, Room(h), old(h.connections), old(Room(h)), intf, bundle, items, i, grant)
      invariant rest == Rest(items[..i], bundle)
      invariant count > 0 <==> HasCport(items[..i], bundle)
    {
      var d := items[i];
      HeadOfRest(items, i, bundle);
      ghost var cs, room := h.connections, Room(h);
      if !For(d, bundle) {
        rest := rest + [d];
        StateStays(cs, room, old(h.connections), old(Room(h)), intf, bundle, items, i, grant);
      } else {
        var ok := SetUpCport(h, intf, bundle, d, grant(bundle, d.id));
        if !ok {
          CannotSetUp(items[i..], bundle, intf, cs, room, grant);
          return 0, rest;
        }
        if Wanted(d) {
          StateAdds(cs, room, h.connections, old(h.connections), old(Room(h)), intf, bundle, items, i, grant);
        } else {
          StateStays(cs, room, old(h.connections), old(Room(h)), intf, bundle, items, i, grant);
        }
        count := count + 1;
      }
      i := i + 1;
    }
    assert items[..i] == items && items[i..] == [];
    ProgressGains(h.connections, old(h.connections), intf, bundle, items);
  }

  lemma HeadOfRest(items: seq<Item>, i: nat, bundle: nat)
    requires i < |items|
    ensures items[i..] == [items[i]] + items[i + 1..]
    ensures (Rest(items[..i + 1], bundle)
             == Rest(items[..i], bundle) + (if For(items[i], bundle) then [] else [items[i]]))
    ensures HasCport(items[..i + 1], bundle) <==> HasCport(items[..i], bundle) || For(items[i], bundle)
  {
    assert items[..i + 1] == items[..i] + [items[i]];
    RestSnoc(items[..i], items[i], bundle);
    if HasCport(items[..i], bundle) {
      var e :| e in items[..i] && For(e, bundle);
      assert e in items[..i + 1];
    }
    if For(items[i], bundle) {
      assert items[i] in items[..i + 1];
    }
  }

  /** A descriptor that cannot be set up now means that not all could. */
  lemma CannotSetUp(s: seq<Item>, bundle: nat, intf: nat, cs: seq<Connection>, room: nat, grant: (nat, nat) -> Services)
    requires s != [] && For(s[0], bundle)
    requires !(Fits(s[0], intf, cs, grant) && (Wanted(s[0]) ==> room >= 1))
    ensures !CportsReady(s, {bundle}, intf, cs, room, grant)
  {
  }

  // ------------------------------------------------------------- bundles

  function OutsideBundles(bs: seq<Bundle>, intf: nat): seq<Bundle> {
    if bs == [] then []
    else (if bs[0].home.intf == intf then [] else [bs[0]]) + OutsideBundles(bs[1..], intf)
  }

  lemma {:induction false} OutsideBundlesRemove(bs: seq<Bundle>, k: nat, intf: nat)
    requires k < |bs| && bs[k].home.intf == intf
    ensures OutsideBundles(RemoveAt(bs, k), intf) == OutsideBundles(bs, intf)
  {
    if k == 0 {
      assert RemoveAt(bs, k) == bs[1..];
    } else {
      OutsideBundlesRemove(bs[1..], k - 1, intf);
      assert RemoveAt(bs, k) == [bs[0]] + RemoveAt(bs[1..], k - 1);
    }
  }

  lemma {:induction false} OutsideBundlesNone(bs: seq<Bundle>, intf: nat)
    requires forall i :: 0 <= i < |bs| ==> bs[i].home.intf != intf
    ensures OutsideBundles(bs, intf) == bs
  {
    if bs != [] {
      OutsideBundlesNone(bs[1..], intf);
    }
  }

  /** The cleanup path of gb_manifest_parse_bundles: every bundle of the interface goes, and with it
      every connection; nothing of any other interface is touched. */
  method Cleanup(h: Host, intf: nat)
    requires h.Valid()
    modifies h
    ensures h.Valid() && StillBounded(old(h.Bounded()), h)
    ensures h.bundles == OutsideBundles(old(h.bundles), intf)
    ensures h.connections == Outside(old(h.connections), intf, None)
    ensures forall b :: b in h.bundles ==> b.home.intf != intf
    ensures forall c :: c in h.connections ==> !In(c, intf, None)
  {
    var i := 0;
    while i < |h.bundles|
      invariant h.Valid() && StillBounded(old(h.Bounded()), h) && i <= |h.bundles|
      invariant forall k :: 0 <= k < i ==> h.bundles[k].home.intf != intf
      invariant OutsideBundles(h.bundles, intf) == OutsideBundles(old(h.bundles), intf)
      invariant Outside(h.connections, intf, None) == Outside(old(h.connections), intf, None)
      decreases |h.bundles| - i
    {
      if h.bundles[i].home.intf == intf {
        OutsideBundlesRemove(h.bundles, i, intf);
        OutsideTwice(h.connections, intf, h.bundles[i].home.bundle);
        h.DestroyBundle(i);
      } else {
        i := i + 1;
      }
    }
    OutsideBundlesNone(h.bundles, intf);
    OutsideNone(h.connections, intf, None);
  }

  /** No bundle and no connection of the interface exists. */
  ghost predicate Bare(bs: seq<Bundle>, cs: seq<Connection>, intf: nat) {
    (forall b :: b in bs ==> b.home.intf != intf) && (forall c :: c in cs ==> !In(c, intf, None))
  }

  /** Taking back a partly built interface leaves what the others had to begin with. */
  method Abandon(h: Host, intf: nat, ghost items: seq<Item>, ghost cs: seq<Connection>, ghost bs: seq<Bundle>)
    requires h.Valid() && Extends(h.connections, cs, intf, items)
    requires OutsideBundles(h.bundles, intf) == OutsideBundles(bs, intf)
    modifies h
    ensures h.Valid() && StillBounded(old(h.Bounded()), h) && Bare(h.bundles, h.connections, intf)
    ensures h.connections == Outside(cs, intf, None) && h.bundles == OutsideBundles(bs, intf)
  {
    ExtendsOutside(h.connections, cs, intf, items);
    Cleanup(h, intf);
  }

  /** The interface has the bundle that this descriptor declares. */
  ghost predicate Built(bs: seq<Bundle>, intf: nat, d: Item)
    requires d.BundleItem?
  {
    Bundle(Home(intf, d.id), d.cls) in bs
  }

  /** Every bundle was there before or is declared. */
  ghost predicate OnlyDeclared(bs: seq<Bundle>, was: seq<Bundle>, intf: nat, items: seq<Item>) {
    forall b :: b in bs ==> b in was || exists d :: d in items && d.BundleItem? && b == Bundle(Home(intf, d.id), d.cls)
  }

  method FirstBundle(items: seq<Item>) returns (k: nat)
    ensures k <= |items|
    ensures k < |items| ==> items[k].BundleItem?
    ensures k == |items| ==> forall d :: d in items ==> !d.BundleItem?
  {
    k := 0;
    while k < |items| && !items[k].BundleItem?
      invariant k <= |items|
      invariant forall j :: 0 <= j < k ==> !items[j].BundleItem?
    {
      k := k + 1;
    }
  }

  /** Progress of the bundle loop: left are the descriptors not yet used, done the bundles set up. */
  ghost predicate Progress(bs: seq<Bundle>, cs: seq<Connection>, intf: nat, items: seq<Item>, left: seq<Item>,
                           done: set<nat>) {
    && (forall d :: d in left ==> d in items)
    && (forall d :: d in items && d.BundleItem? && d !in left ==> d.id in done && Built(bs, intf, d))
    && (forall d :: d in items && d.CportItem? && d !in left && Wanted(d) ==> Served(cs, intf, d))
    && (forall d, b :: d in left && b in done ==> !For(d, b))
    && (forall b :: b in done ==> exists d :: d in items && For(d, b))
  }

  /** Everything the manifest asks for is there. */
  ghost predicate Complete(bs: seq<Bundle>, cs: seq<Connection>, intf: nat, items: seq<Item>) {
    && (forall d :: d in items && d.BundleItem? ==>
          Built(bs, intf, d) && exists e :: e in items && For(e, d.id))
    && (forall d :: d in items && Wanted(d) && d.bundle in Declared(items) ==> Served(cs, intf, d))
  }

  lemma DoneIsComplete(bs: seq<Bundle>, cs: seq<Connection>, intf: nat, items: seq<Item>, left: seq<Item>,
                       done: set<nat>)
    requires Progress(bs, cs, intf, items, left, done)
    requires forall d :: d in left ==> !d.BundleItem?
    ensures Complete(bs, cs, intf, items)
  {
  }

  /** One round of the bundle loop. */
  lemma RoundKeeps(bs: seq<Bundle>, cs: seq<Connection>, bs': seq<Bundle>, cs': seq<Connection>, intf: nat,
                   items: seq<Item>, left: seq<Item>, k: nat, done: set<nat>)
    requires Progress(bs, cs, intf, items, left, done)
    requires k < |left| && left[k].BundleItem?
    requires forall b :: b in bs ==> b in bs'
    requires Built(bs', intf, left[k])
    requires forall d :: d in items && d.CportItem? && Served(cs, intf, d) ==> Served(cs', intf, d)
    requires forall d :: d in left && For(d, left[k].id) && Wanted(d) ==> Served(cs', intf, d)
    requires exists d :: d in left && For(d, left[k].id)
    ensures Progress(bs', cs', intf, items, Rest(RemoveAt(left, k), left[k].id), done + {left[k].id})
  {
    var id := left[k].id;
    var others := RemoveAt(left, k);
    var left' := Rest(others, id);
    forall d ensures d in left' <==> d in others && !For(d, id) {
      RestMembers(others, id, d);
    }
    assert forall d :: d in others ==> d in left;
    forall d | d in left && d != left[k] ensures d in others {
      var i :| 0 <= i < |left| && left[i] == d;
      assert others[if i < k then i else i - 1] == d;
    }
  }

  lemma ExtendsServed(cs: seq<Connection>, was: seq<Connection>, intf: nat, items: seq<Item>, d: Item)
    requires Extends(cs, was, intf, items) && d.CportItem? && Served(was, intf, d)
    ensures Served(cs, intf, d)
  {
  }

  /** What SetUpBundle promises is what the loop needs. */
  lemma RoundDone(bs: seq<Bundle>, cs: seq<Connection>, bs': seq<Bundle>, cs': seq<Connection>, intf: nat,
                  items: seq<Item>, left: seq<Item>, k: nat, done: set<nat>)
    requires Progress(bs, cs, intf, items, left, done)
    requires k < |left| && left[k].BundleItem?
    requires forall b :: b in bs ==> b in bs'
    requires Built(bs', intf, left[k])
    requires Extends(cs', cs, intf, RemoveAt(left, k))
    requires forall d :: d in RemoveAt(left, k) && For(d, left[k].id) && Wanted(d) ==> Served(cs', intf, d)
    requires exists d :: d in RemoveAt(left, k) && For(d, left[k].id)
    ensures var rest := Rest(RemoveAt(left, k), left[k].id);
      Progress(bs', cs', intf, items, rest, done + {left[k].id}) && |rest| < |left|
  {
    OthersCover(left, k);
    var others := RemoveAt(left, k);
    forall e | e in items && e.CportItem? && Served(cs, intf, e) ensures Served(cs', intf, e) {
      ExtendsServed(cs', cs, intf, others, e);
    }
    assert forall d :: d in others ==> d in left;
    RoundKeeps(bs, cs, bs', cs', intf, items, left, k, done);
    RestMembers(others, left[k].id, left[k]);
  }

  lemma HomeGrows(bs: seq<Bundle>, b: Bundle)
    ensures forall h: Home :: HasHome([b] + bs, h) <==> HasHome(bs, h) || h == b.home
  {
    var all := [b] + bs;
    forall h: Home ensures HasHome(all, h) <==> HasHome(bs, h) || h == b.home {
      assert all[0] == b;
      if HasHome(bs, h) {
        var i :| 0 <= i < |bs| && bs[i].home == h;
        assert all[i + 1].home == h;
      }
    }
  }

  /** The body of the loop for one bundle descriptor. */
  method SetUpBundle(h: Host, intf: nat, d: Item, others: seq<Item>, grant: (nat, nat) -> Services,
                     grantBundle: nat -> bool)
    returns (ok: bool, rest: seq<Item>)
    requires h.Valid() && h.numCports >= 1 && d.BundleItem?
    requires Bundle(Home(intf, CONTROL), CONTROL) in h.bundles
    modifies h
    ensures h.Valid() && StillBounded(old(h.Bounded()), h)
    ensures Extends(h.connections, old(h.connections), intf, others)
    ensures OutsideBundles(h.bundles, intf) == OutsideBundles(old(h.bundles), intf)
    ensures forall b :: b in old(h.bundles) ==> b in h.bundles
    ensures forall b :: b in h.bundles ==> b in old(h.bundles) || b == Bundle(Home(intf, d.id), d.cls)
    ensures (ok <==> && BundleFits(d, intf, old(h.bundles), grantBundle) && HasCport(others, d.id)
                     && CportsReady(others, {d.id}, intf, old(h.connections), old(Room(h)), grant))
    ensures (ok ==>
             && rest == Rest(others, d.id)
             && Built(h.bundles, intf, d) && GainedHome(old(h.bundles), h.bundles, intf, d.id)
             && (forall e :: e in others && For(e, d.id) && Wanted(e) ==> Served(h.connections, intf, e))
             && Gained(old(h.connections), h.connections, intf, others, d.id)
             && Room(h) == old(Room(h)) - Total(others, {d.id}))
  {
    ok, rest := false, [];
    if (d.id == CONTROL) != (d.cls == CONTROL) {
      return;
    }
    if d.id != CONTROL {
      var made := h.CreateBundle(Home(intf, d.id), d.cls, grantBundle(d.id));
      if !made {
        return;
      }
      HomeGrows(old(h.bundles), Bundle(Home(intf, d.id), d.cls));
      assert h.bundles[0] == Bundle(Home(intf, d.id), d.cls);
      assert h.bundles[1..] == old(h.bundles);
    }
    assert HasHome(h.bundles, Home(intf, d.id)) by {
      var i :| 0 <= i < |h.bundles| && h.bundles[i] == Bundle(Home(intf, d.id), d.cls);
    }
    var count;
    count, rest := ParseCports(h, intf, d.id, others, grant);
    ok := count > 0;
  }

  /** The state between two rounds of the loop; cs and bs are what the host had to begin with. */
  ghost predicate Underway(bs': seq<Bundle>, cs': seq<Connection>, intf: nat, items: seq<Item>, left: seq<Item>,
                           done: set<nat>, bs: seq<Bundle>, cs: seq<Connection>) {
    && Bundle(Home(intf, CONTROL), CONTROL) in bs'
    && Progress(bs', cs', intf, items, left, done)
    && Extends(cs', cs, intf, items)
    && OutsideBundles(bs', intf) == OutsideBundles(bs, intf)
    && OnlyDeclared(bs', bs, intf, items)
  }

  lemma UnderwayStart(bs: seq<Bundle>, cs: seq<Connection>, intf: nat, items: seq<Item>)
    requires Bundle(Home(intf, CONTROL), CONTROL) in bs
    ensures Underway(bs, cs, intf, items, items, {}, bs, cs)
  {
  }

  /** A bundle set up as SetUpBundle promises takes the loop one round further. */
  lemma UnderwayNext(bs1: seq<Bundle>, cs1: seq<Connection>, bs2: seq<Bundle>, cs2: seq<Connection>, intf: nat,
                     items: seq<Item>, left: seq<Item>, k: nat, done: set<nat>, bs: seq<Bundle>, cs: seq<Connection>)
    requires Underway(bs1, cs1, intf, items, left, done, bs, cs)
    requires k < |left| && left[k].BundleItem?
    requires forall b :: b in bs1 ==> b in bs2
    requires forall b :: b in bs2 ==> b in bs1 || b == Bundle(Home(intf, left[k].id), left[k].cls)
    requires OutsideBundles(bs2, intf) == OutsideBundles(bs1, intf)
    requires Built(bs2, intf, left[k])
    requires Extends(cs2, cs1, intf, RemoveAt(left, k))
    requires forall d :: d in RemoveAt(left, k) && For(d, left[k].id) && Wanted(d) ==> Served(cs2, intf, d)
    requires HasCport(RemoveAt(left, k), left[k].id)
    ensures Underway(bs2, cs2, intf, items, AfterBundle(left, k), done + {left[k].id}, bs, cs)
    ensures |AfterBundle(left, k)| < |left|
  {
    assert left[k] in items by { assert left[k] in left; }
    RemoveMembers(left, k);
    RoundDone(bs1, cs1, bs2, cs2, intf, items, left, k, done);
    ExtendsTransitive(cs, cs1, cs2, intf, RemoveAt(left, k), items);
  }

  /** One round of the loop, with its error path. */
  method Round(h: Host, intf: nat, ghost items: seq<Item>, left: seq<Item>, k: nat, ghost done: set<nat>,
               ghost bs: seq<Bundle>, ghost cs: seq<Connection>,
               grant: (nat, nat) -> Services, grantBundle: nat -> bool)
    returns (ok: bool, rest: seq<Item>)
    requires h.Valid() && h.numCports >= 1 && k < |left| && left[k].BundleItem?
    requires Underway(h.bundles, h.connections, intf, items, left, done, bs, cs)
    modifies h
    ensures h.Valid() && StillBounded(old(h.Bounded()), h)
    ensures ok ==> Underway(h.bundles, h.connections, intf, items, rest, done + {left[k].id}, bs, cs) && |rest| < |left|
    ensures (!ok ==>
             && Bare(h.bundles, h.connections, intf)
             && h.connections == Outside(cs, intf, None) && h.bundles == OutsideBundles(bs, intf))
    ensures (old(Ready(left, intf, h.bundles, h.connections, Room(h), grant, grantBundle))
             <==> ok && Ready(rest, intf, h.bundles, h.connections, Room(h), grant, grantBundle))
  {
    ghost var cs1, bs1, room1 := h.connections, h.bundles, Room(h);
    var others := RemoveAt(left, k);
    ok, rest := SetUpBundle(h, intf, left[k], others, grant, grantBundle);
    if ok {
      UnderwayNext(bs1, cs1, h.bundles, h.connections, intf, items, left, k, done, bs, cs);
      ReadyRound(left, k, intf, bs1, h.bundles, cs1, h.connections, room1, grant, grantBundle);
    } else {
      if Ready(left, intf, bs1, cs1, room1, grant, grantBundle) {
        ReadyImplies(left, k, intf, bs1, cs1, room1, grant, grantBundle);
      }
      RemoveMembers(left, k);
      ExtendsTransitive(cs, cs1, h.connections, intf, others, items);
      Abandon(h, intf, items, cs, bs);
    }
  }

  /**
   gb_manifest_parse_bundles.  The count is positive exactly when there is a bundle descriptor and everything
   declared can be built.  All or nothing: a positive count means that every bundle descriptor has its
   bundle, with its id and class and at least one CPort, that every non-zero CPort descriptor of a declared
   bundle has its connection, and that nothing else was added; a count of zero means that no bundle and no
   connection of the interface is left while those of all others are untouched -- unless the manifest
   has no bundle descriptor at all, in which case nothing happens.
   */
  method ParseBundles(h: Host, intf: nat, items: seq<Item>, grant: (nat, nat) -> Services, grantBundle: nat -> bool)
    returns (count: nat)
    requires h.Valid() && h.numCports >= 1
    requires Bundle(Home(intf, CONTROL), CONTROL) in h.bundles
    modifies h
    ensures h.Valid() && StillBounded(old(h.Bounded()), h)
    ensures (count > 0 <==>
             && (exists d :: d in items && d.BundleItem?)
             && old(Ready(items, intf, h.bundles, h.connections, Room(h), grant, grantBundle)))
    ensures count > 0 ==>
      && Complete(h.bundles, h.connections, intf, items)
      && Extends(h.connections, old(h.connections), intf, items)
      && OutsideBundles(h.bundles, intf) == OutsideBundles(old(h.bundles), intf)
      && OnlyDeclared(h.bundles, old(h.bundles), intf, items)
    ensures count == 0 && (exists d :: d in items && d.BundleItem?) ==>
      && Bare(h.bundles, h.connections, intf)
      && h.connections == Outside(old(h.connections), intf, None)
      && h.bundles == OutsideBundles(old(h.bundles), intf)
    ensures (forall d :: d in items ==> !d.BundleItem?) ==>
      count == 0 && h.connections == old(h.connections) && h.bundles == old(h.bundles)
  {
    count := 0;
    var left := items;
    ghost var done: set<nat> := {};
    var k: nat := FirstBundle(left);
    UnderwayStart(h.bundles, h.connections, intf, items);
    while k < |left|
      invariant h.Valid() && StillBounded(old(h.Bounded()), h)
      invariant k <= |left| && (k < |left| ==> left[k].BundleItem?)
      invariant k == |left| ==> forall d :: d in left ==> !d.BundleItem?
      invariant Underway(h.bundles, h.connections, intf, items, left, done, old(h.bundles), old(h.connections))
      invariant count == 0 ==> left == items && h.connections == old(h.connections) && h.bundles == old(h.bundles)
      invariant count > 0 ==> exists d :: d in items && d.BundleItem?
      invariant (old(Ready(items, intf, h.bundles, h.connections, Room(h), grant, grantBundle))
                 <==> Ready(left, intf, h.bundles, h.connections, Room(h), grant, grantBundle))
      decreases |left|
    {
      assert left[k] in left;
      var ok, rest := Round(h, intf, items, left, k, done, old(h.bundles), old(h.connections), grant, grantBundle);
      if !ok {
        return 0;
      }
      done := done + {left[k].id};
      left := rest;
      count := count + 1;
      k := FirstBundle(left);
    }
    NothingIsReady(left, intf, h.bundles, h.connections, Room(h), grant, grantBundle);
    if count > 0 {
      DoneIsComplete(h.bundles, h.connections, intf, items, left, done);
    }
  }

  lemma OthersCover(left: seq<Item>, k: nat)
    requires k < |left|
    ensures forall e :: e in left && e != left[k] ==> e in RemoveAt(left, k)
  {
  }
}
