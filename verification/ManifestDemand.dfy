/** What the descriptors of a manifest ask for, and when a host can give all of it. */
module ManifestDemand {
  import opened Common
  import opened HostDevice

  const CPORT_ID_MAX := 4095
  const CONTROL := 0            // control bundle id, CPort id, protocol id and class

  /** A descriptor on intf->manifest_descs, with the fields the building pass reads. */
  datatype Item =
    | BundleItem(id: nat, cls: nat)
    | CportItem(id: nat, bundle: nat, protocol: nat)
    | OtherItem

  predicate For(d: Item, bundle: nat) {
    d.CportItem? && d.bundle == bundle
  }

  /** CPort descriptors that call for a connection: those of the control CPort do not. */
  predicate Wanted(d: Item) {
    d.CportItem? && d.id != CONTROL
  }

  /** The descriptors left when those of one bundle's CPorts have been released. */
  function Rest(items: seq<Item>, bundle: nat): seq<Item> {
    if items == [] then []
    else (if For(items[0], bundle) then [] else [items[0]]) + Rest(items[1..], bundle)
  }

  lemma {:induction false} RestSnoc(items: seq<Item>, d: Item, bundle: nat)
    ensures Rest(items + [d], bundle) == Rest(items, bundle) + (if For(d, bundle) then [] else [d])
  {
    if items == [] {
      assert items + [d] == [d];
    } else {
      RestSnoc(items[1..], d, bundle);
      assert (items + [d])[1..] == items[1..] + [d];
    }
  }

  lemma {:induction false} RestMembers(items: seq<Item>, bundle: nat, d: Item)
    ensures d in Rest(items, bundle) <==> d in items && !For(d, bundle)
    ensures |Rest(items, bundle)| <= |items|
  {
    if items != [] {
      RestMembers(items[1..], bundle, d);
      assert d in items <==> d == items[0] || d in items[1..];
    }
  }

  lemma RestAll(items: seq<Item>, bundle: nat)
    ensures forall d :: d in Rest(items, bundle) <==> d in items && !For(d, bundle)
  {
  }

  // ---------------------------------------------------------------- counting

  /** d calls for a connection in one of the bundles. */
  predicate Asks(d: Item, bundles: set<nat>) {
    Wanted(d) && d.bundle in bundles
  }

  /** How many connections are called for in these bundles, and how many of them for CPort x. */
  function Total(s: seq<Item>, bundles: set<nat>): nat {
    if s == [] then 0 else Bit(Asks(s[0], bundles)) + Total(s[1..], bundles)
  }

  function Copies(s: seq<Item>, bundles: set<nat>, x: nat): nat {
    if s == [] then 0 else Bit(Asks(s[0], bundles) && s[0].id == x) + Copies(s[1..], bundles, x)
  }

  /** How many descriptors declare bundle x. */
  function Declarations(s: seq<Item>, x: nat): nat {
    if s == [] then 0 else Bit(s[0].BundleItem? && s[0].id == x) + Declarations(s[1..], x)
  }

  lemma {:induction false} CopiesWitness(s: seq<Item>, bundles: set<nat>, x: nat)
    ensures Copies(s, bundles, x) >= 1 <==> exists d :: d in s && Asks(d, bundles) && d.id == x
  {
    if s != [] {
      CopiesWitness(s[1..], bundles, x);
      assert forall d :: d in s <==> d == s[0] || d in s[1..];
    }
  }

  lemma {:induction false} DeclarationsWitness(s: seq<Item>, x: nat)
    ensures Declarations(s, x) >= 1 <==> exists d :: d in s && d.BundleItem? && d.id == x
  {
    if s != [] {
      DeclarationsWitness(s[1..], x);
      assert forall d :: d in s <==> d == s[0] || d in s[1..];
    }
  }

  lemma {:induction false} CountsRemove(s: seq<Item>, k: nat, bundles: set<nat>, x: nat)
    requires k < |s|
    ensures Total(RemoveAt(s, k), bundles) + Bit(Asks(s[k], bundles)) == Total(s, bundles)
    ensures Copies(RemoveAt(s, k), bundles, x) + Bit(Asks(s[k], bundles) && s[k].id == x) == Copies(s, bundles, x)
    ensures Declarations(RemoveAt(s, k), x) + Bit(s[k].BundleItem? && s[k].id == x) == Declarations(s, x)
  {
    if k == 0 {
      assert RemoveAt(s, k) == s[1..];
    } else {
      CountsRemove(s[1..], k - 1, bundles, x);
      assert RemoveAt(s, k) == [s[0]] + RemoveAt(s[1..], k - 1);
    }
  }

  /** The counts over one more bundle, and over what is left when that bundle's CPorts are released. */
  lemma {:induction false} CountsSplit(s: seq<Item>, id: nat, bundles: set<nat>, x: nat)
    requires id !in bundles
    ensures Total(s, bundles + {id}) == Total(s, {id}) + Total(Rest(s, id), bundles)
    ensures Copies(s, bundles + {id}, x) == Copies(s, {id}, x) + Copies(Rest(s, id), bundles, x)
    ensures Declarations(Rest(s, id), x) == Declarations(s, x)
  {
    if s != [] {
      CountsSplit(s[1..], id, bundles, x);
      var rest := Rest(s[1..], id);
      assert [] + rest == rest && ([s[0]] + rest)[1..] == rest;
    }
  }

  // -------------------------------------------------------------- CPort demands

  /** Some connection of the interface has this CPort. */
  ghost predicate Used(cs: seq<Connection>, intf: nat, cport: nat) {
    exists c :: c in cs && In(c, intf, None) && c.cport == cport
  }

  /** The id is in range, and the control CPort and the control protocol go together. */
  predicate Sane(d: Item)
    requires d.CportItem?
  {
    d.id <= CPORT_ID_MAX && (d.id == CONTROL <==> d.protocol == CONTROL)
  }

  /** The limits in numbers: ids below 4096, and id zero goes with protocol zero. */
  lemma SaneByNumber(d: Item)
    requires d.CportItem?
    ensures Sane(d) <==> d.id < 4096 && (d.id == 0 <==> d.protocol == 0)
  {
  }

  /** Nothing about this CPort descriptor itself keeps it from being set up. */
  ghost predicate Fits(d: Item, intf: nat, cs: seq<Connection>, grant: (nat, nat) -> Services)
    requires d.CportItem?
  {
    Sane(d) && (Wanted(d) ==> !Used(cs, intf, d.id) && AllGranted(grant(d.bundle, d.id)))
  }

  /** With room for free more connections, every CPort of these bundles can be set up. */
  ghost predicate CportsReady(s: seq<Item>, bundles: set<nat>, intf: nat, cs: seq<Connection>, free: int,
                              grant: (nat, nat) -> Services) {
    && (forall d :: d in s && d.CportItem? && d.bundle in bundles ==> Fits(d, intf, cs, grant))
    && (forall x :: Copies(s, bundles, x) <= 1)
    && Total(s, bundles) <= free
  }

  lemma CportsSkip(d: Item, s: seq<Item>, bundle: nat, intf: nat, cs: seq<Connection>, free: int,
                   grant: (nat, nat) -> Services)
    requires !For(d, bundle)
    ensures CportsReady([d] + s, {bundle}, intf, cs, free, grant) <==> CportsReady(s, {bundle}, intf, cs, free, grant)
    ensures Total([d] + s, {bundle}) == Total(s, {bundle})
  {
    assert ([d] + s)[1..] == s;
    assert forall x :: Copies([d] + s, {bundle}, x) == Copies(s, {bundle}, x);
  }

  lemma CportsControl(d: Item, s: seq<Item>, bundle: nat, intf: nat, cs: seq<Connection>, free: int,
                      grant: (nat, nat) -> Services)
    requires For(d, bundle) && !Wanted(d)
    ensures (CportsReady([d] + s, {bundle}, intf, cs, free, grant)
             <==> Sane(d) && CportsReady(s, {bundle}, intf, cs, free, grant))
    ensures Total([d] + s, {bundle}) == Total(s, {bundle})
  {
    assert ([d] + s)[1..] == s;
    assert forall x :: Copies([d] + s, {bundle}, x) == Copies(s, {bundle}, x);
    if CportsReady([d] + s, {bundle}, intf, cs, free, grant) {
      assert d in [d] + s;
    }
  }

  /** Setting up one wanted CPort leaves the rest ready exactly when all was ready before. */
  lemma CportsTake(d: Item, s: seq<Item>, bundle: nat, intf: nat, cs: seq<Connection>, c: Connection, free: int,
                   grant: (nat, nat) -> Services)
    requires For(d, bundle) && Wanted(d) && In(c, intf, None) && c.cport == d.id
    ensures (CportsReady([d] + s, {bundle}, intf, cs, free, grant)
             <==> Fits(d, intf, cs, grant) && free >= 1 && CportsReady(s, {bundle}, intf, [c] + cs, free - 1, grant))
    ensures Total([d] + s, {bundle}) == Total(s, {bundle}) + 1
  {
    assert ([d] + s)[1..] == s;
    UsedGrows(cs, c, intf);
    if CportsReady([d] + s, {bundle}, intf, cs, free, grant) {
      assert d in [d] + s;
      CportsTakeDown(d, s, bundle, intf, cs, c, free, grant);
    }
    if Fits(d, intf, cs, grant) && CportsReady(s, {bundle}, intf, [c] + cs, free - 1, grant) {
      CportsTakeUp(d, s, bundle, intf, cs, c, free, grant);
    }
  }

  lemma UsedGrows(cs: seq<Connection>, c: Connection, intf: nat)
    requires In(c, intf, None)
    ensures forall x :: Used([c] + cs, intf, x) <==> Used(cs, intf, x) || x == c.cport
  {
  }

  lemma CportsTakeDown(d: Item, s: seq<Item>, bundle: nat, intf: nat, cs: seq<Connection>, c: Connection, free: int,
                       grant: (nat, nat) -> Services)
    requires For(d, bundle) && Wanted(d) && In(c, intf, None) && c.cport == d.id
    requires CportsReady([d] + s, {bundle}, intf, cs, free, grant)
    ensures CportsReady(s, {bundle}, intf, [c] + cs, free - 1, grant)
  {
    assert ([d] + s)[1..] == s;
    UsedGrows(cs, c, intf);
    forall e | e in s && e.CportItem? && e.bundle in {bundle} ensures Fits(e, intf, [c] + cs, grant) {
      assert e in [d] + s;
      CopiesWitness(s, {bundle}, d.id);
      assert Copies([d] + s, {bundle}, d.id) == 1 + Copies(s, {bundle}, d.id);
    }
    forall x ensures Copies(s, {bundle}, x) <= 1 {
      assert Copies([d] + s, {bundle}, x) >= Copies(s, {bundle}, x);
    }
  }

  lemma CportsTakeUp(d: Item, s: seq<Item>, bundle: nat, intf: nat, cs: seq<Connection>, c: Connection, free: int,
                     grant: (nat, nat) -> Services)
    requires For(d, bundle) && Wanted(d) && In(c, intf, None) && c.cport == d.id && Fits(d, intf, cs, grant)
    requires CportsReady(s, {bundle}, intf, [c] + cs, free - 1, grant)
    ensures CportsReady([d] + s, {bundle}, intf, cs, free, grant)
  {
    var all := [d] + s;
    assert all[1..] == s;
    UsedGrows(cs, c, intf);
    forall e | e in all && e.CportItem? && e.bundle in {bundle} ensures Fits(e, intf, cs, grant) {
      if e != d { assert e in s; }
    }
    forall x ensures Copies(all, {bundle}, x) <= 1 {
      CopiesWitness(s, {bundle}, x);
      assert Copies(all, {bundle}, x) == Bit(d.id == x) + Copies(s, {bundle}, x);
      if d.id == x {
        assert forall e :: e in s && Asks(e, {bundle}) ==> Fits(e, intf, [c] + cs, grant) && e.id != x;
      }
    }
  }

  /** cs' has, for the interface, the CPorts of cs and those called for in one bundle. */
  ghost predicate Gained(cs: seq<Connection>, cs': seq<Connection>, intf: nat, s: seq<Item>, bundle: nat) {
    forall x :: Used(cs', intf, x) <==> Used(cs, intf, x) || Copies(s, {bundle}, x) >= 1
  }

  /** Setting up one bundle's CPorts leaves the other bundles ready exactly when all were ready before. */
  lemma CportsSplit(s: seq<Item>, id: nat, bundles: set<nat>, intf: nat, cs: seq<Connection>, cs': seq<Connection>,
                    free: int, grant: (nat, nat) -> Services)
    requires id !in bundles && Gained(cs, cs', intf, s, id)
    ensures (CportsReady(s, bundles + {id}, intf, cs, free, grant)
             <==> && CportsReady(s, {id}, intf, cs, free, grant)
                  && CportsReady(Rest(s, id), bundles, intf, cs', free - Total(s, {id}), grant))
  {
    if CportsReady(s, bundles + {id}, intf, cs, free, grant) {
      SplitDown(s, id, bundles, intf, cs, cs', free, grant);
    }
    if && CportsReady(s, {id}, intf, cs, free, grant)
       && CportsReady(Rest(s, id), bundles, intf, cs', free - Total(s, {id}), grant) {
      SplitUp(s, id, bundles, intf, cs, cs', free, grant);
    }
  }

  lemma SplitDown(s: seq<Item>, id: nat, bundles: set<nat>, intf: nat, cs: seq<Connection>, cs': seq<Connection>,
                  free: int, grant: (nat, nat) -> Services)
    requires id !in bundles && Gained(cs, cs', intf, s, id)
    requires CportsReady(s, bundles + {id}, intf, cs, free, grant)
    ensures CportsReady(s, {id}, intf, cs, free, grant)
    ensures CportsReady(Rest(s, id), bundles, intf, cs', free - Total(s, {id}), grant)
  {
    RestAll(s, id);
    forall x ensures Copies(s, {id}, x) <= 1 && Copies(Rest(s, id), bundles, x) <= 1 {
      CountsSplit(s, id, bundles, x);
    }
    CountsSplit(s, id, bundles, 0);
    forall d | d in Rest(s, id) && d.CportItem? && d.bundle in bundles ensures Fits(d, intf, cs', grant) {
      CountsSplit(s, id, bundles, d.id);
      CopiesWitness(Rest(s, id), bundles, d.id);
    }
  }

  lemma SplitUp(s: seq<Item>, id: nat, bundles: set<nat>, intf: nat, cs: seq<Connection>, cs': seq<Connection>,
                free: int, grant: (nat, nat) -> Services)
    requires id !in bundles && Gained(cs, cs', intf, s, id)
    requires CportsReady(s, {id}, intf, cs, free, grant)
    requires CportsReady(Rest(s, id), bundles, intf, cs', free - Total(s, {id}), grant)
    ensures CportsReady(s, bundles + {id}, intf, cs, free, grant)
  {
    RestAll(s, id);
    CountsSplit(s, id, bundles, 0);
    forall d | d in s && d.CportItem? && d.bundle in bundles + {id} ensures Fits(d, intf, cs, grant) {
      if d.bundle != id {
        assert d in Rest(s, id);
      }
    }
    forall x ensures Copies(s, bundles + {id}, x) <= 1 {
      CountsSplit(s, id, bundles, x);
      CopiesWitness(Rest(s, id), bundles, x);
      if Copies(s, {id}, x) >= 1 {
        assert forall d :: d in Rest(s, id) && Asks(d, bundles) ==> Fits(d, intf, cs', grant) && d.id != x;
      }
    }
  }

  // ------------------------------------------------------------- bundle demands

  ghost function Declared(s: seq<Item>): set<nat> {
    set d | d in s && d.BundleItem? :: d.id
  }

  /** Nothing about this bundle descriptor itself keeps it from being set up. */
  ghost predicate BundleFits(d: Item, intf: nat, bs: seq<Bundle>, grantBundle: nat -> bool)
    requires d.BundleItem?
  {
    && (d.id == CONTROL <==> d.cls == CONTROL)
    && (d.id != CONTROL ==> grantBundle(d.id) && !HasHome(bs, Home(intf, d.id)))
  }

  ghost predicate HasCport(s: seq<Item>, bundle: nat) {
    exists e :: e in s && For(e, bundle)
  }

  ghost predicate BundlesReady(s: seq<Item>, intf: nat, bs: seq<Bundle>, grantBundle: nat -> bool) {
    && (forall d :: d in s && d.BundleItem? ==> BundleFits(d, intf, bs, grantBundle) && HasCport(s, d.id))
    && (forall x :: Declarations(s, x) <= 1)
  }

  /**
   Everything the descriptors declare can be built: bundles with sound, unused and distinct ids and at least
   one CPort each; their CPorts with sound, unused and distinct ids and as many free host CPorts; and every
   kernel service granted.
   */
  ghost predicate Ready(s: seq<Item>, intf: nat, bs: seq<Bundle>, cs: seq<Connection>, free: int,
                        grant: (nat, nat) -> Services, grantBundle: nat -> bool) {
    BundlesReady(s, intf, bs, grantBundle) && CportsReady(s, Declared(s), intf, cs, free, grant)
  }

  /** bs' has the homes of bs and, for a bundle other than the control bundle, the new one. */
  ghost predicate GainedHome(bs: seq<Bundle>, bs': seq<Bundle>, intf: nat, id: nat) {
    forall h :: HasHome(bs', h) <==> HasHome(bs, h) || (id != CONTROL && h == Home(intf, id))
  }

  /** Releasing a descriptor that is no CPort changes no CPort demand. */
  lemma CportsRemove(s: seq<Item>, k: nat, bundles: set<nat>, intf: nat, cs: seq<Connection>, free: int,
                     grant: (nat, nat) -> Services)
    requires k < |s| && !s[k].CportItem?
    ensures (CportsReady(RemoveAt(s, k), bundles, intf, cs, free, grant)
             <==> CportsReady(s, bundles, intf, cs, free, grant))
  {
    forall x ensures Copies(RemoveAt(s, k), bundles, x) == Copies(s, bundles, x) {
      CountsRemove(s, k, bundles, x);
    }
    CountsRemove(s, k, bundles, 0);
    RemoveMembers(s, k);
  }

  lemma RemoveMembers(s: seq<Item>, k: nat)
    requires k < |s|
    ensures forall d :: d in RemoveAt(s, k) ==> d in s
    ensures forall d :: d in s && d != s[k] ==> d in RemoveAt(s, k)
  {
  }

  /** What is left once the bundle at position k and its CPorts have been set up. */
  function AfterBundle(s: seq<Item>, k: nat): seq<Item>
    requires k < |s| && s[k].BundleItem?
  {
    Rest(RemoveAt(s, k), s[k].id)
  }

  lemma AfterMembers(s: seq<Item>, k: nat)
    requires k < |s| && s[k].BundleItem?
    ensures forall d :: d in AfterBundle(s, k) ==> d in s && !For(d, s[k].id)
    ensures forall d :: d in s && d != s[k] && !For(d, s[k].id) ==> d in AfterBundle(s, k)
    ensures forall x :: Declarations(s, x) == Declarations(AfterBundle(s, k), x) + Bit(x == s[k].id)
  {
    RemoveMembers(s, k);
    RestAll(RemoveAt(s, k), s[k].id);
    forall x ensures Declarations(s, x) == Declarations(AfterBundle(s, k), x) + Bit(x == s[k].id) {
      CountsRemove(s, k, {}, x);
      CountsSplit(RemoveAt(s, k), s[k].id, {}, x);
    }
  }

  lemma BundlesDown(s: seq<Item>, k: nat, intf: nat, bs: seq<Bundle>, bs': seq<Bundle>, grantBundle: nat -> bool)
    requires k < |s| && s[k].BundleItem? && GainedHome(bs, bs', intf, s[k].id)
    requires BundlesReady(s, intf, bs, grantBundle)
    ensures BundlesReady(AfterBundle(s, k), intf, bs', grantBundle)
    ensures s[k].id !in Declared(AfterBundle(s, k))
  {
    var rest := AfterBundle(s, k);
    AfterMembers(s, k);
    DeclarationsWitness(rest, s[k].id);
    assert Declarations(s, s[k].id) <= 1;
    forall d | d in rest && d.BundleItem?
      ensures BundleFits(d, intf, bs', grantBundle) && HasCport(rest, d.id)
    {
      var e :| e in s && For(e, d.id);
      assert d.id != s[k].id;
      assert e in rest;
    }
    forall x ensures Declarations(rest, x) <= 1 {
      assert Declarations(s, x) <= 1;
    }
  }

  lemma BundlesUp(s: seq<Item>, k: nat, intf: nat, bs: seq<Bundle>, bs': seq<Bundle>, grantBundle: nat -> bool)
    requires k < |s| && s[k].BundleItem? && GainedHome(bs, bs', intf, s[k].id)
    requires BundleFits(s[k], intf, bs, grantBundle) && HasCport(s, s[k].id)
    requires BundlesReady(AfterBundle(s, k), intf, bs', grantBundle)
    ensures BundlesReady(s, intf, bs, grantBundle)
    ensures s[k].id !in Declared(AfterBundle(s, k))
  {
    var rest := AfterBundle(s, k);
    AfterMembers(s, k);
    assert !HasCport(rest, s[k].id);
    DeclarationsWitness(rest, s[k].id);
    forall d | d in s && d.BundleItem?
      ensures BundleFits(d, intf, bs, grantBundle) && HasCport(s, d.id)
    {
      if d != s[k] {
        assert d in rest;
        var e :| e in rest && For(e, d.id);
        assert e in s;
      }
    }
    forall x ensures Declarations(s, x) <= 1 {
      assert Declarations(rest, x) <= 1;
    }
  }

  lemma DeclaredAfter(s: seq<Item>, k: nat)
    requires k < |s| && s[k].BundleItem?
    ensures Declared(s) == Declared(AfterBundle(s, k)) + {s[k].id}
  {
    AfterMembers(s, k);
    assert s[k] in s;
  }

  /** One round of the bundle loop: all is ready exactly when this bundle and its CPorts can be set up and all
      that is left is ready afterwards. */
  lemma ReadyRound(s: seq<Item>, k: nat, intf: nat, bs: seq<Bundle>, bs': seq<Bundle>,
                   cs: seq<Connection>, cs': seq<Connection>, free: int,
                   grant: (nat, nat) -> Services, grantBundle: nat -> bool)
    requires k < |s| && s[k].BundleItem?
    requires GainedHome(bs, bs', intf, s[k].id) && Gained(cs, cs', intf, RemoveAt(s, k), s[k].id)
    requires BundleFits(s[k], intf, bs, grantBundle) && HasCport(RemoveAt(s, k), s[k].id)
    requires CportsReady(RemoveAt(s, k), {s[k].id}, intf, cs, free, grant)
    ensures (Ready(s, intf, bs, cs, free, grant, grantBundle)
             <==> Ready(AfterBundle(s, k), intf, bs', cs', free - Total(RemoveAt(s, k), {s[k].id}), grant, grantBundle))
  {
    BundlesRound(s, k, intf, bs, bs', grantBundle);
    if s[k].id !in Declared(AfterBundle(s, k)) {
      CportsRound(s, k, intf, cs, cs', free, grant);
    }
  }

  lemma BundlesRound(s: seq<Item>, k: nat, intf: nat, bs: seq<Bundle>, bs': seq<Bundle>, grantBundle: nat -> bool)
    requires k < |s| && s[k].BundleItem? && GainedHome(bs, bs', intf, s[k].id)
    requires BundleFits(s[k], intf, bs, grantBundle) && HasCport(RemoveAt(s, k), s[k].id)
    ensures BundlesReady(s, intf, bs, grantBundle) <==> BundlesReady(AfterBundle(s, k), intf, bs', grantBundle)
    ensures BundlesReady(s, intf, bs, grantBundle) ==> s[k].id !in Declared(AfterBundle(s, k))
  {
    RemoveMembers(s, k);
    assert HasCport(s, s[k].id);
    if BundlesReady(s, intf, bs, grantBundle) {
      BundlesDown(s, k, intf, bs, bs', grantBundle);
    }
    if BundlesReady(AfterBundle(s, k), intf, bs', grantBundle) {
      BundlesUp(s, k, intf, bs, bs', grantBundle);
    }
  }

  lemma CportsRound(s: seq<Item>, k: nat, intf: nat, cs: seq<Connection>, cs': seq<Connection>, free: int,
                    grant: (nat, nat) -> Services)
    requires k < |s| && s[k].BundleItem? && s[k].id !in Declared(AfterBundle(s, k))
    requires Gained(cs, cs', intf, RemoveAt(s, k), s[k].id)
    requires CportsReady(RemoveAt(s, k), {s[k].id}, intf, cs, free, grant)
    ensures (CportsReady(s, Declared(s), intf, cs, free, grant)
             <==> CportsReady(AfterBundle(s, k), Declared(AfterBundle(s, k)), intf, cs',
                              free - Total(RemoveAt(s, k), {s[k].id}), grant))
  {
    DeclaredAfter(s, k);
    CportsRemove(s, k, Declared(s), intf, cs, free, grant);
    CportsSplit(RemoveAt(s, k), s[k].id, Declared(AfterBundle(s, k)), intf, cs, cs', free, grant);
  }

  /** If all is ready, so is any one bundle. */
  lemma ReadyImplies(s: seq<Item>, k: nat, intf: nat, bs: seq<Bundle>, cs: seq<Connection>, free: int,
                     grant: (nat, nat) -> Services, grantBundle: nat -> bool)
    requires k < |s| && s[k].BundleItem? && Ready(s, intf, bs, cs, free, grant, grantBundle)
    ensures BundleFits(s[k], intf, bs, grantBundle) && HasCport(RemoveAt(s, k), s[k].id)
    ensures CportsReady(RemoveAt(s, k), {s[k].id}, intf, cs, free, grant)
  {
    var others := RemoveAt(s, k);
    RemoveMembers(s, k);
    assert s[k] in s;
    var e :| e in s && For(e, s[k].id);
    assert e in others;
    CportsRemove(s, k, Declared(s), intf, cs, free, grant);
    Narrower(others, Declared(s), {s[k].id}, intf, cs, free, grant);
  }

  lemma Narrower(s: seq<Item>, more: set<nat>, fewer: set<nat>, intf: nat, cs: seq<Connection>, free: int,
                 grant: (nat, nat) -> Services)
    requires fewer <= more && CportsReady(s, more, intf, cs, free, grant)
    ensures CportsReady(s, fewer, intf, cs, free, grant)
  {
    forall x ensures Copies(s, fewer, x) <= 1 {
      FewerCounts(s, more, fewer, x);
    }
    FewerCounts(s, more, fewer, 0);
  }

  lemma {:induction false} FewerCounts(s: seq<Item>, more: set<nat>, fewer: set<nat>, x: nat)
    requires fewer <= more
    ensures Copies(s, fewer, x) <= Copies(s, more, x) && Total(s, fewer) <= Total(s, more)
  {
    if s != [] {
      FewerCounts(s[1..], more, fewer, x);
    }
  }

  /** Without a bundle descriptor nothing is asked for. */
  lemma NothingIsReady(s: seq<Item>, intf: nat, bs: seq<Bundle>, cs: seq<Connection>, free: nat,
                       grant: (nat, nat) -> Services, grantBundle: nat -> bool)
    requires forall d :: d in s ==> !d.BundleItem?
    ensures Ready(s, intf, bs, cs, free, grant, grantBundle)
  {
    assert Declared(s) == {};
    forall x ensures Copies(s, {}, x) == 0 && Declarations(s, x) == 0 {
      CopiesWitness(s, {}, x);
      DeclarationsWitness(s, x);
    }
    NoDemand(s);
  }

  lemma {:induction false} NoDemand(s: seq<Item>)
    ensures Total(s, {}) == 0
  {
    if s != [] {
      NoDemand(s[1..]);
    }
  }

  /** Releasing a descriptor that is neither bundle nor CPort changes nothing. */
  lemma ReadyRemove(s: seq<Item>, k: nat, intf: nat, bs: seq<Bundle>, cs: seq<Connection>, free: int,
                    grant: (nat, nat) -> Services, grantBundle: nat -> bool)
    requires k < |s| && s[k].OtherItem?
    ensures (Ready(RemoveAt(s, k), intf, bs, cs, free, grant, grantBundle)
             <==> Ready(s, intf, bs, cs, free, grant, grantBundle))
  {
    var r := RemoveAt(s, k);
    RemoveMembers(s, k);
    assert Declared(r) == Declared(s);
    CportsRemove(s, k, Declared(s), intf, cs, free, grant);
    forall x ensures Declarations(r, x) == Declarations(s, x) {
      CountsRemove(s, k, {}, x);
    }
    forall x ensures HasCport(r, x) <==> HasCport(s, x) {
      if HasCport(s, x) {
        var e :| e in s && For(e, x);
        assert e in r;
      }
    }
  }

  // ---------------------------------------------------------------- free ids

  /** The ids that gb_connection_create may still hand out. */
  ghost function Free(ids: set<nat>, limit: nat): set<nat> {
    set i: nat | i < limit && i !in ids
  }

  lemma LowestIsFree(ids: set<nat>, end: nat)
    ensures LowestFree(ids, 0, end).Some? <==> |Free(ids, Limit(end))| >= 1
    ensures (LowestFree(ids, 0, end).Some? ==>
             |Free(ids + {LowestFree(ids, 0, end).value}, Limit(end))| == |Free(ids, Limit(end))| - 1)
  {
    var r, limit := LowestFree(ids, 0, end), Limit(end);
    if r.Some? {
      assert r.value in Free(ids, limit);
      assert Free(ids + {r.value}, limit) == Free(ids, limit) - {r.value};
    } else {
      assert Free(ids, limit) == {};
    }
  }
}
