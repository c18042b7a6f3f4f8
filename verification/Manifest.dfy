/** gb_manifest_parse: from the bytes of a manifest to bundles and connections. */
module Manifest {
  import opened Common
  import opened Errno
  import opened ManifestScan
  import opened ManifestDemand
  import opened ManifestBuild
  import opened HostDevice

  // ------------------------------------------------------------ reading

  /** The fields of the descriptor that the later passes read. */
  function ReadItem(data: seq<byte>, d: Desc): Item
    requires ValidAt(data, d.start, d.size, d.kind)
  {
    var p := d.start + DESC_HEADER;
    if d.kind == TYPE_BUNDLE then BundleItem(data[p], data[p + 1])
    else if d.kind == TYPE_CPORT then CportItem(Le16(data[p], data[p + 1]), data[p + 2], data[p + 3])
    else OtherItem
  }

  ghost predicate AllValid(data: seq<byte>, descs: seq<Desc>) {
    forall i :: 0 <= i < |descs| ==> ValidAt(data, descs[i].start, descs[i].size, descs[i].kind)
  }

  lemma {:induction false} TilesAllValid(data: seq<byte>, from: nat, descs: seq<Desc>)
    requires Tiles(data, from, descs)
    ensures AllValid(data, descs)
    decreases descs
  {
    if descs != [] {
      TilesAllValid(data, from + descs[0].size, descs[1..]);
      assert forall i :: 1 <= i < |descs| ==> descs[i] == descs[1..][i - 1];
    }
  }

  function Items(data: seq<byte>, descs: seq<Desc>): (items: seq<Item>)
    requires AllValid(data, descs)
    ensures |items| == |descs|
    ensures forall i :: 0 <= i < |descs| ==> items[i] == ReadItem(data, descs[i])
  {
    seq(|descs|, i requires 0 <= i < |descs| => ReadItem(data, descs[i]))
  }

  // ------------------------------------------------------------ strings

  /** Result of gb_string_get. */
  datatype Text = NoString | Text(bytes: seq<byte>) | Missing

  /** A string descriptor's id and text. */
  function StringId(data: seq<byte>, d: Desc): byte
    requires ValidAt(data, d.start, d.size, d.kind) && d.kind == TYPE_STRING
  {
    data[d.start + DESC_HEADER + 1]
  }

  function StringText(data: seq<byte>, d: Desc): seq<byte>
    requires ValidAt(data, d.start, d.size, d.kind) && d.kind == TYPE_STRING
  {
    var p := d.start + DESC_HEADER;
    data[p + 2..p + 2 + data[p]]
  }

  predicate IsString(data: seq<byte>, d: Desc, id: byte)
    requires ValidAt(data, d.start, d.size, d.kind)
  {
    d.kind == TYPE_STRING && StringId(data, d) == id
  }

  /** The texts of the string descriptors with this id, in order. */
  ghost function Texts(data: seq<byte>, descs: seq<Desc>, id: byte): seq<seq<byte>>
    requires AllValid(data, descs)
  {
    if descs == [] then []
    else
      assert forall i :: 1 <= i < |descs| ==> descs[i] == descs[1..][i - 1];
      (if IsString(data, descs[0], id) then [StringText(data, descs[0])] else []) + Texts(data, descs[1..], id)
  }

  /** Releasing the first string with an id takes the first text from that id, and none from the others. */
  lemma {:induction false} TextsRemove(data: seq<byte>, descs: seq<Desc>, k: nat, id: byte)
    requires AllValid(data, descs) && k < |descs|
    requires IsString(data, descs[k], id) ==> forall i :: 0 <= i < k ==> !IsString(data, descs[i], id)
    ensures AllValid(data, RemoveAt(descs, k))
    ensures (Texts(data, descs, id)
             == (if IsString(data, descs[k], id) then [StringText(data, descs[k])] else [])
                + Texts(data, RemoveAt(descs, k), id))
  {
    var rest := descs[1..];
    assert forall i :: 1 <= i < |descs| ==> descs[i] == rest[i - 1];
    if k == 0 {
      assert RemoveAt(descs, k) == rest;
    } else {
      TextsRemove(data, rest, k - 1, id);
      assert RemoveAt(descs, k) == [descs[0]] + RemoveAt(rest, k - 1);
      assert RemoveAt(descs, k)[1..] == RemoveAt(rest, k - 1);
    }
  }

  lemma {:induction false} NoTexts(data: seq<byte>, descs: seq<Desc>, id: byte)
    requires AllValid(data, descs) && forall i :: 0 <= i < |descs| ==> !IsString(data, descs[i], id)
    ensures Texts(data, descs, id) == []
  {
    if descs != [] {
      assert forall i :: 1 <= i < |descs| ==> descs[i] == descs[1..][i - 1];
      NoTexts(data, descs[1..], id);
    }
  }

  /** Descriptor k is the first string with this id; its text was taken and it was released. */
  ghost predicate TakesFirst(data: seq<byte>, descs: seq<Desc>, id: byte, k: nat, text: seq<byte>, rest: seq<Desc>)
    requires AllValid(data, descs) && k < |descs|
  {
    && (forall i :: 0 <= i < k ==> !IsString(data, descs[i], id))
    && IsString(data, descs[k], id) && text == StringText(data, descs[k]) && rest == RemoveAt(descs, k)
  }

  /** gb_string_get: the first string descriptor with the given id is used up. */
  method StringGet(data: seq<byte>, descs: seq<Desc>, id: byte) returns (r: Text, rest: seq<Desc>)
    requires AllValid(data, descs)
    ensures id == 0 <==> r == NoString
    ensures r.Missing? <==> id != 0 && Texts(data, descs, id) == []
    ensures r.Text? ==> Texts(data, descs, id) != [] && r.bytes == Texts(data, descs, id)[0]
    ensures !r.Text? ==> rest == descs
    ensures r.Text? ==> exists k: nat :: k < |descs| && TakesFirst(data, descs, id, k, r.bytes, rest)
  {
    rest := descs;
    if id == 0 {
      return NoString, rest;
    }
    for k := 0 to |descs|
      invariant forall i :: 0 <= i < k ==> !IsString(data, descs[i], id)
      invariant rest == descs
    {
      if IsString(data, descs[k], id) {
        r, rest := Text(StringText(data, descs[k])), RemoveAt(descs, k);
        assert TakesFirst(data, descs, id, k, r.bytes, rest);
        TextsRemove(data, descs, k, id);
        return;
      }
    }
    NoTexts(data, descs, id);
    r := Missing;
  }

  // ------------------------------------------------------- the whole parse

  /** Releasing descriptors that are neither bundles nor CPorts loses nothing that is to be built. */
  ghost predicate SameDemands(data: seq<byte>, descs: seq<Desc>, rest: seq<Desc>)
    requires AllValid(data, descs)
  {
    && AllValid(data, rest)
    && (forall d :: d in rest ==> d in descs)
    && (forall d :: d in descs && (d.kind == TYPE_BUNDLE || d.kind == TYPE_CPORT) ==> d in rest)
  }

  lemma ReleaseKeeps(data: seq<byte>, descs: seq<Desc>, rest: seq<Desc>, k: nat)
    requires AllValid(data, descs) && SameDemands(data, descs, rest) && k < |rest|
    requires rest[k].kind != TYPE_BUNDLE && rest[k].kind != TYPE_CPORT
    ensures SameDemands(data, descs, RemoveAt(rest, k))
  {
  }

  lemma DemandsComplete(data: seq<byte>, descs: seq<Desc>, rest: seq<Desc>, bs: seq<Bundle>, cs: seq<Connection>,
                        intf: nat)
    requires AllValid(data, descs) && SameDemands(data, descs, rest)
    requires Complete(bs, cs, intf, Items(data, rest))
    ensures Complete(bs, cs, intf, Items(data, descs))
  {
  }

  /** Descriptor k is the only interface descriptor. */
  predicate OnlyInterface(descs: seq<Desc>, k: nat) {
    && k < |descs| && descs[k].kind == TYPE_INTERFACE
    && forall j :: 0 <= j < |descs| && descs[j].kind == TYPE_INTERFACE ==> j == k
  }

  method FindInterface(descs: seq<Desc>) returns (found: nat, first: nat)
    ensures found == 1 ==> OnlyInterface(descs, first)
    ensures found != 1 ==> forall k: nat :: !OnlyInterface(descs, k)
  {
    found, first := 0, 0;
    for i := 0 to |descs|
      invariant found > 0 ==> first < i && descs[first].kind == TYPE_INTERFACE
      invariant found == 0 ==> forall j :: 0 <= j < i ==> descs[j].kind != TYPE_INTERFACE
      invariant found == 1 ==> forall j :: 0 <= j < i && descs[j].kind == TYPE_INTERFACE ==> j == first
      invariant found > 1 ==> exists j :: 0 <= j < i && j != first && descs[j].kind == TYPE_INTERFACE
    {
      if descs[i].kind == TYPE_INTERFACE {
        if found == 0 {
          first := i;
        }
        found := found + 1;
      }
    }
  }

  /** The strings that an interface descriptor names are there; if both names have one id, two descriptors
      have to carry it, since the first is used up. */
  ghost predicate Names(data: seq<byte>, descs: seq<Desc>, vendor: byte, product: byte)
    requires AllValid(data, descs)
  {
    && (vendor != 0 ==> |Texts(data, descs, vendor)| >= 1)
    && (product != 0 ==> |Texts(data, descs, product)| >= 1 + Bit(vendor == product))
  }

  /** There is exactly one interface descriptor, its strings are there, and there is a bundle descriptor. */
  ghost predicate Named(data: seq<byte>, descs: seq<Desc>)
    requires AllValid(data, descs)
  {
    exists k: nat :: OnlyInterface(descs, k)
      && Names(data, descs, data[descs[k].start + DESC_HEADER], data[descs[k].start + DESC_HEADER + 1])
  }

  /** What gb_string_get returns for a name that is there: the k-th text with its id, or none for id 0. */
  ghost function NameOf(texts: seq<seq<byte>>, id: byte, k: nat): Text
    requires id != 0 ==> k < |texts|
  {
    if id == 0 then NoString else Text(texts[k])
  }

  /** The two names are the texts of the strings that the interface descriptor names, the vendor's first. */
  ghost predicate NamedAs(data: seq<byte>, descs: seq<Desc>, vendor: Text, product: Text)
    requires AllValid(data, descs)
  {
    forall k: nat :: OnlyInterface(descs, k) ==>
      NamedWith(data, descs, data[descs[k].start + DESC_HEADER], data[descs[k].start + DESC_HEADER + 1],
                vendor, product)
  }

  ghost predicate NamedWith(data: seq<byte>, descs: seq<Desc>, v: byte, p: byte, vendor: Text, product: Text)
    requires AllValid(data, descs)
  {
    && Names(data, descs, v, p)
    && vendor == NameOf(Texts(data, descs, v), v, 0)
    && product == NameOf(Texts(data, descs, p), p, Bit(v == p))
  }

  lemma InterfaceNames(data: seq<byte>, descs: seq<Desc>, k: nat, vendor: Text, product: Text)
    requires AllValid(data, descs) && OnlyInterface(descs, k)
    ensures var v, p := data[descs[k].start + DESC_HEADER], data[descs[k].start + DESC_HEADER + 1];
      && (Named(data, descs) <==> Names(data, descs, v, p))
      && (NamedAs(data, descs, vendor, product) <==> NamedWith(data, descs, v, p, vendor, product))
  {
  }

  ghost predicate HasBundle(items: seq<Item>) {
    exists d :: d in items && d.BundleItem?
  }

  /** The buffer is a manifest whose descriptors get as far as the building pass. */
  ghost predicate Buildable(data: seq<byte>, descs: seq<Desc>) {
    && HeaderOk(data) && Tiles(data, MANIFEST_HEADER, descs) && AllValid(data, descs)
    && Named(data, descs) && HasBundle(Items(data, descs))
  }

  /** Removing a descriptor that is neither bundle nor CPort: the demands stay, and so do other strings. */
  lemma Release(data: seq<byte>, descs: seq<Desc>, k: nat, intf: nat, bs: seq<Bundle>, cs: seq<Connection>, free: int,
                grant: (nat, nat) -> Services, grantBundle: nat -> bool)
    requires AllValid(data, descs) && k < |descs| && descs[k].kind != TYPE_BUNDLE && descs[k].kind != TYPE_CPORT
    ensures AllValid(data, RemoveAt(descs, k))
    ensures (Ready(Items(data, RemoveAt(descs, k)), intf, bs, cs, free, grant, grantBundle)
             <==> Ready(Items(data, descs), intf, bs, cs, free, grant, grantBundle))
    ensures HasBundle(Items(data, RemoveAt(descs, k))) <==> HasBundle(Items(data, descs))
  {
    var items := Items(data, descs);
    assert Items(data, RemoveAt(descs, k)) == RemoveAt(items, k);
    ReadyRemove(items, k, intf, bs, cs, free, grant, grantBundle);
    RemoveMembers(items, k);
  }

  /** gb_manifest_parse_interface up to its strings: what is left, or a missing string. */
  method TakeNames(data: seq<byte>, descs: seq<Desc>, k: nat, ghost intf: nat, ghost bs: seq<Bundle>,
                   ghost cs: seq<Connection>, ghost free: int,
                   ghost grant: (nat, nat) -> Services, ghost grantBundle: nat -> bool)
    returns (ok: bool, vendor: Text, product: Text, left: seq<Desc>)
    requires AllValid(data, descs) && OnlyInterface(descs, k)
    ensures ok <==> Named(data, descs)
    ensures ok ==> NamedAs(data, descs, vendor, product)
    ensures !ok ==> !vendor.Text? && !product.Text?
    ensures (ok ==>
             && SameDemands(data, descs, left)
             && (Ready(Items(data, left), intf, bs, cs, free, grant, grantBundle)
                 <==> Ready(Items(data, descs), intf, bs, cs, free, grant, grantBundle))
             && (HasBundle(Items(data, left)) <==> HasBundle(Items(data, descs))))
  {
    var p := descs[k].start + DESC_HEADER;
    var vendorId, productId := data[p], data[p + 1];
    Release(data, descs, k, intf, bs, cs, free, grant, grantBundle);
    ReleaseKeeps(data, descs, descs, k);
    InterfaceIsNoString(data, descs, k);
    left := RemoveAt(descs, k);
    product := NoString;
    ok, vendor, left := TakeName(data, descs, left, vendorId, intf, bs, cs, free, grant, grantBundle);
    if ok {
      ok, product, left := TakeName(data, descs, left, productId, intf, bs, cs, free, grant, grantBundle);
      if !ok {
        vendor := NoString;
      }
    }
    InterfaceNames(data, descs, k, vendor, product);
  }

  lemma InterfaceIsNoString(data: seq<byte>, descs: seq<Desc>, k: nat)
    requires AllValid(data, descs) && OnlyInterface(descs, k)
    ensures AllValid(data, RemoveAt(descs, k))
    ensures forall id :: Texts(data, RemoveAt(descs, k), id) == Texts(data, descs, id)
  {
    TextsRemove(data, descs, k, 0);
    forall id ensures Texts(data, RemoveAt(descs, k), id) == Texts(data, descs, id) {
      TextsRemove(data, descs, k, id);
    }
  }

  /** One gb_string_get of gb_manifest_parse_interface. */
  method TakeName(data: seq<byte>, ghost descs: seq<Desc>, before: seq<Desc>, id: byte, ghost intf: nat,
                  ghost bs: seq<Bundle>,
                  ghost cs: seq<Connection>, ghost free: int,
                  ghost grant: (nat, nat) -> Services, ghost grantBundle: nat -> bool)
    returns (ok: bool, text: Text, left: seq<Desc>)
    requires AllValid(data, descs) && SameDemands(data, descs, before)
    ensures SameDemands(data, descs, left)
    ensures ok <==> id == 0 || |Texts(data, before, id)| >= 1
    ensures ok ==> text == NameOf(Texts(data, before, id), id, 0)
    ensures !ok ==> text == Missing
    ensures (ok ==> forall x :: Texts(data, left, x) ==
                                if id != 0 && x == id then Texts(data, before, x)[1..] else Texts(data, before, x))
    ensures (Ready(Items(data, left), intf, bs, cs, free, grant, grantBundle)
             <==> Ready(Items(data, before), intf, bs, cs, free, grant, grantBundle))
    ensures HasBundle(Items(data, left)) <==> HasBundle(Items(data, before))
  {
    text, left := StringGet(data, before, id);
    ok := !text.Missing?;
    if text.Text? {
      ghost var k: nat :| k < |before| && TakesFirst(data, before, id, k, text.bytes, left);
      ReleaseKeeps(data, descs, before, k);
      Release(data, before, k, intf, bs, cs, free, grant, grantBundle);
      forall x ensures (Texts(data, left, x) ==
                        if x == id then Texts(data, before, x)[1..] else Texts(data, before, x)) {
        TextsRemove(data, before, k, x);
      }
    }
  }

  /**
   gb_manifest_parse.  It succeeds exactly when the buffer is a well-formed manifest with one interface
   descriptor, the strings that names, and a bundle descriptor, and everything declared can be built; then all of
   it has been built, and nothing else.  A buffer that does not get as far as the building pass leaves the host
   as it was; one that does but fails leaves nothing of this interface and everything of the others.
   */
  method Parse(h: Host, intf: nat, data: seq<byte>, beyond: byte,
               grant: (nat, nat) -> Services, grantBundle: nat -> bool)
    returns (result: bool, vendor: Text, product: Text, ghost descs: seq<Desc>)
    requires h.Valid() && h.numCports >= 1
    requires Bundle(Home(intf, CONTROL), CONTROL) in h.bundles
    modifies h
    ensures h.Valid() && StillBounded(old(h.Bounded()), h)
    ensures Tileable(data, MANIFEST_HEADER) && HeaderOk(data) ==> Tiles(data, MANIFEST_HEADER, descs)
    ensures (result <==>
             && Buildable(data, descs)
             && old(Ready(Items(data, descs), intf, h.bundles, h.connections, Room(h), grant, grantBundle)))
    ensures (result ==>
             && Complete(h.bundles, h.connections, intf, Items(data, descs))
             && Extends(h.connections, old(h.connections), intf, Items(data, descs))
             && OutsideBundles(h.bundles, intf) == OutsideBundles(old(h.bundles), intf)
             && OnlyDeclared(h.bundles, old(h.bundles), intf, Items(data, descs)))
    ensures result ==> NamedAs(data, descs, vendor, product)
    ensures !result ==> !vendor.Text? && !product.Text?
    ensures !Buildable(data, descs) ==> h.connections == old(h.connections) && h.bundles == old(h.bundles)
    ensures (!result && Buildable(data, descs) ==>
             && Bare(h.bundles, h.connections, intf)
             && h.connections == Outside(old(h.connections), intf, None)
             && h.bundles == OutsideBundles(old(h.bundles), intf))
  {
    result, vendor, product, descs := false, NoString, NoString, [];
    var ok, scanned := Scan(data, beyond);
    if !ok {
      return;
    }
    descs := scanned;
    TilesAllValid(data, MANIFEST_HEADER, scanned);
    var found, first := FindInterface(scanned);
    if found != 1 {
      assert !Named(data, descs);
      return;
    }
    var left;
    ok, vendor, product, left :=
      TakeNames(data, scanned, first, intf, h.bundles, h.connections, Room(h), grant, grantBundle);
    if !ok {
      return;
    }
    result := Build(h, intf, data, scanned, left, grant, grantBundle);
    if !result {
      vendor, product := NoString, NoString;
    }
  }

  /** The building pass on what the names have left. */
  method Build(h: Host, intf: nat, data: seq<byte>, ghost descs: seq<Desc>, left: seq<Desc>,
               grant: (nat, nat) -> Services, grantBundle: nat -> bool)
    returns (result: bool)
    requires h.Valid() && h.numCports >= 1
    requires Bundle(Home(intf, CONTROL), CONTROL) in h.bundles
    requires AllValid(data, descs) && SameDemands(data, descs, left)
    requires (Ready(Items(data, left), intf, h.bundles, h.connections, Room(h), grant, grantBundle)
              <==> Ready(Items(data, descs), intf, h.bundles, h.connections, Room(h), grant, grantBundle))
    requires HasBundle(Items(data, left)) <==> HasBundle(Items(data, descs))
    modifies h
    ensures h.Valid() && StillBounded(old(h.Bounded()), h)
    ensures (result <==>
             && HasBundle(Items(data, descs))
             && old(Ready(Items(data, descs), intf, h.bundles, h.connections, Room(h), grant, grantBundle)))
    ensures (result ==>
             && Complete(h.bundles, h.connections, intf, Items(data, descs))
             && Extends(h.connections, old(h.connections), intf, Items(data, descs))
             && OutsideBundles(h.bundles, intf) == OutsideBundles(old(h.bundles), intf)
             && OnlyDeclared(h.bundles, old(h.bundles), intf, Items(data, descs)))
    ensures !HasBundle(Items(data, descs)) ==> h.connections == old(h.connections) && h.bundles == old(h.bundles)
    ensures (!result && HasBundle(Items(data, descs)) ==>
             && Bare(h.bundles, h.connections, intf)
             && h.connections == Outside(old(h.connections), intf, None)
             && h.bundles == OutsideBundles(old(h.bundles), intf))
  {
    var count := ParseBundles(h, intf, Items(data, left), grant, grantBundle);
    result := count > 0;
    if result {
      DemandsComplete(data, descs, left, h.bundles, h.connections, intf);
      DemandsExtend(data, descs, left, h.connections, old(h.connections), intf);
      DemandsDeclare(data, descs, left, h.bundles, old(h.bundles), intf);
    }
  }

  lemma DemandsDeclare(data: seq<byte>, descs: seq<Desc>, rest: seq<Desc>, bs: seq<Bundle>, was: seq<Bundle>, intf: nat)
    requires AllValid(data, descs) && SameDemands(data, descs, rest)
    requires OnlyDeclared(bs, was, intf, Items(data, rest))
    ensures OnlyDeclared(bs, was, intf, Items(data, descs))
  {
  }

  lemma DemandsExtend(data: seq<byte>, descs: seq<Desc>, rest: seq<Desc>, cs: seq<Connection>,
                      was: seq<Connection>, intf: nat)
    requires AllValid(data, descs) && SameDemands(data, descs, rest)
    requires Extends(cs, was, intf, Items(data, rest))
    ensures Extends(cs, was, intf, Items(data, descs))
  {
  }
}
