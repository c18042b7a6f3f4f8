/** The writer's side of a manifest: the bytes of each descriptor, field by field, and what the parser makes of them. */
module ManifestWire {
  import opened Common
  import opened Errno
  import opened ManifestScan
  import opened ManifestDemand
  import opened ManifestBuild
  import opened Manifest
  import opened HostDevice

  // ---------------------------------------------------------------- descriptors

  datatype Descriptor =
    | InterfaceDesc(vendor: byte, product: byte)
    | StringDesc(id: byte, text: seq<byte>)
    | BundleDesc(id: byte, cls: byte)
    | CportDesc(cport: u16, bundle: byte, protocol: byte)

  /** A descriptor with the byte that pads its header, and whatever follows its fields. */
  datatype Written = Written(desc: Descriptor, pad: byte, tail: seq<byte>)

  function Code(d: Descriptor): byte {
    match d
    case InterfaceDesc(_, _) => 1
    case StringDesc(_, _) => 2
    case BundleDesc(_, _) => 3
    case CportDesc(_, _, _) => 4
  }

  /** The fields in the order of greybus_manifest.h. */
  function Fields(d: Descriptor): seq<byte>
    requires d.StringDesc? ==> |d.text| < 0x100
  {
    match d
    case InterfaceDesc(vendor, product) => [vendor, product]
    case StringDesc(id, text) => [|text|, id] + text
    case BundleDesc(id, cls) => [id, cls]
    case CportDesc(id, bundle, protocol) => [id % 0x100, id / 0x100, bundle, protocol]
  }

  /** Header, fields and tail; the size is in the header, and the fields are filled up to a multiple of four. */
  predicate Proper(w: Written) {
    && (w.desc.StringDesc? ==> |w.desc.text| < 0x100)
    && 4 + |Fields(w.desc)| + |w.tail| < 0x1_0000
    && (|Fields(w.desc)| + |w.tail|) / 4 * 4 >= |Fields(w.desc)|
  }

  function Wire(w: Written): seq<byte>
    requires Proper(w)
  {
    var size := 4 + |Fields(w.desc)| + |w.tail|;
    [size % 0x100, size / 0x100, Code(w.desc), w.pad] + Fields(w.desc) + w.tail
  }

  function ItemOf(d: Descriptor): Item {
    match d
    case BundleDesc(id, cls) => BundleItem(id, cls)
    case CportDesc(id, bundle, protocol) => CportItem(id, bundle, protocol)
    case _ => OtherItem
  }

  /** The parser's view of the descriptor at d is what was written. */
  predicate Reads(data: seq<byte>, d: Desc, w: Descriptor) {
    && ValidAt(data, d.start, d.size, d.kind)
    && d.kind == Code(w)
    && ReadItem(data, d) == ItemOf(w)
    && (w.InterfaceDesc? ==> data[d.start + DESC_HEADER] == w.vendor && data[d.start + DESC_HEADER + 1] == w.product)
    && (w.StringDesc? ==> StringId(data, d) == w.id && StringText(data, d) == w.text)
  }

  lemma WireBytes(w: Written)
    requires Proper(w)
    ensures var b := Wire(w);
      && |b| == 4 + |Fields(w.desc)| + |w.tail| && |b| >= 8
      && Le16(b[0], b[1]) == |b| && b[2] == Code(w.desc)
      && b[4..4 + |Fields(w.desc)|] == Fields(w.desc)
  {
  }

  /** What the fields of each kind of descriptor are, byte by byte. */
  predicate SameFields(b: seq<byte>, d: Descriptor)
    requires |b| >= 8
  {
    match d
    case InterfaceDesc(vendor, product) => b[4] == vendor && b[5] == product
    case StringDesc(id, text) => b[4] == |text| && b[5] == id && 6 + |text| <= |b| && b[6..6 + |text|] == text
    case BundleDesc(id, cls) => b[4] == id && b[5] == cls
    case CportDesc(cport, bundle, protocol) => Le16(b[4], b[5]) == cport && b[6] == bundle && b[7] == protocol
  }

  lemma FieldBytes(b: seq<byte>, d: Descriptor)
    requires |b| >= 8 && (d.StringDesc? ==> |d.text| < 0x100)
    requires 4 + |Fields(d)| <= |b| && b[4..4 + |Fields(d)|] == Fields(d)
    ensures SameFields(b, d)
  {
    var fields := Fields(d);
    assert b[4] == fields[0] && b[5] == fields[1];
    if d.CportDesc? {
      assert b[6] == fields[2] && b[7] == fields[3];
    }
    if d.StringDesc? {
      assert b[6..6 + |d.text|] == b[4..4 + |fields|][2..] == d.text;
    }
  }

  lemma WireChunk(w: Written)
    requires Proper(w)
    ensures var b := Wire(w); Chunk(b) && b[2] == Code(w.desc) && SameFields(b, w.desc)
  {
    WireBytes(w);
    FieldBytes(Wire(w), w.desc);
  }

  lemma InnerSlice(data: seq<byte>, at: nat, b: seq<byte>, i: nat, j: nat)
    requires at + |b| <= |data| && data[at..at + |b|] == b && i <= j <= |b|
    ensures data[at + i..at + j] == b[i..j]
  {
    forall k | 0 <= k < j - i ensures data[at + i..at + j][k] == b[i..j][k] {
      assert data[at..at + |b|][i + k] == b[i + k];
    }
  }

  /** A written descriptor is valid, and is read back as it was written. */
  lemma ReadsBack(data: seq<byte>, at: nat, b: seq<byte>, d: Descriptor)
    requires Chunk(b) && b[2] == Code(d) && SameFields(b, d)
    requires at + |b| <= |data| && data[at..at + |b|] == b
    ensures Reads(data, Desc(at, |b|, Code(d)), d)
  {
    ChunkAt(data, at, |b|);
    assert data[at + 2] == b[2] && data[at + 4] == b[4] && data[at + 5] == b[5];
    assert data[at + 6] == b[6] && data[at + 7] == b[7];
    if d.StringDesc? {
      InnerSlice(data, at, b, 6, 6 + |d.text|);
    }
  }

  /** The bytes of a valid descriptor, taken apart. */
  function Unwire(b: seq<byte>): (w: Written)
    requires Chunk(b)
  {
    if b[2] == 1 then Written(InterfaceDesc(b[4], b[5]), b[3], b[6..])
    else if b[2] == 2 then
      Written(StringDesc(b[5], b[6..6 + b[4]]), b[3], b[6 + b[4]..])
    else if b[2] == 3 then Written(BundleDesc(b[4], b[5]), b[3], b[6..])
    else Written(CportDesc(Le16(b[4], b[5]), b[6], b[7]), b[3], b[8..])
  }

  /** d has the type and the fields that the bytes say. */
  predicate SpelledBy(d: Descriptor, b: seq<byte>) {
    && (d.StringDesc? ==> |d.text| < 0x100) && 4 <= 4 + |Fields(d)| <= |b| / 4 * 4
    && Fields(d) == b[4..4 + |Fields(d)|] && Code(d) == b[2]
  }

  lemma UnwireString(b: seq<byte>)
    requires Chunk(b) && b[2] == 2
    ensures SpelledBy(Unwire(b).desc, b)
    ensures Unwire(b).tail == b[4 + |Fields(Unwire(b).desc)|..]
  {
    var len: nat := b[4];
    RoundedUp(6 + len, |b|);
    assert [b[4], b[5]] + b[6..6 + len] == b[4..6 + len];
  }

  lemma UnwireOther(b: seq<byte>)
    requires Chunk(b) && b[2] != 2
    ensures SpelledBy(Unwire(b).desc, b)
    ensures Unwire(b).tail == b[4 + |Fields(Unwire(b).desc)|..]
  {
    assert b[4..6] == [b[4], b[5]] && b[4..8] == [b[4], b[5], b[6], b[7]];
    var n: nat := Le16(b[4], b[5]);
    assert n % 0x100 == b[4] && n / 0x100 == b[5];
  }

  lemma RoundedUp(n: nat, size: nat)
    requires Align4(n) <= size
    ensures n <= size / 4 * 4
  {
  }

  /** Every valid descriptor is a written one. */
  lemma UnwireWire(b: seq<byte>)
    requires Chunk(b)
    ensures Proper(Unwire(b)) && Wire(Unwire(b)) == b
  {
    if b[2] == 2 {
      UnwireString(b);
    } else {
      UnwireOther(b);
    }
    ValidSize(b);
    var w := Unwire(b);
    Reassemble(b, w.desc, w.pad, 4 + |Fields(w.desc)|);
  }

  lemma ValidSize(b: seq<byte>)
    requires Chunk(b)
    ensures |b| < 0x1_0000 && b[0] == |b| % 0x100 && b[1] == |b| / 0x100
  {
  }

  lemma Reassemble(b: seq<byte>, d: Descriptor, pad: byte, n: nat)
    requires 4 <= n <= |b| < 0x1_0000 && b[0] == |b| % 0x100 && b[1] == |b| / 0x100 && b[2] == Code(d) && b[3] == pad
    requires (d.StringDesc? ==> |d.text| < 0x100) && Fields(d) == b[4..n] && |b| / 4 * 4 >= n
    ensures Proper(Written(d, pad, b[n..])) && Wire(Written(d, pad, b[n..])) == b
  {
    assert b == b[..4] + b[4..n] + b[n..];
    assert b[..4] == [b[0], b[1], b[2], b[3]];
  }

  // ------------------------------------------------------------------ manifests

  ghost predicate AllProper(ws: seq<Written>) {
    forall i :: 0 <= i < |ws| ==> Proper(ws[i])
  }

  function Wires(ws: seq<Written>): (chunks: seq<seq<byte>>)
    requires AllProper(ws)
    ensures |chunks| == |ws| && forall i :: 0 <= i < |ws| ==> chunks[i] == Wire(ws[i])
  {
    seq(|ws|, i requires 0 <= i < |ws| => Wire(ws[i]))
  }

  function Body(ws: seq<Written>): seq<byte>
    requires AllProper(ws)
  {
    Concat(Wires(ws))
  }

  /** The manifest: its size, the version, and the descriptors. */
  function ManifestBytes(ws: seq<Written>, minor: byte): seq<byte>
    requires AllProper(ws) && 4 + |Body(ws)| < 0x1_0000
  {
    var size := 4 + |Body(ws)|;
    [size % 0x100, size / 0x100, 0, minor] + Body(ws)
  }

  /** Each descriptor that the scan lists is the written one. */
  ghost predicate AllRead(data: seq<byte>, descs: seq<Desc>, ws: seq<Written>) {
    |descs| == |ws| && forall i :: 0 <= i < |ws| ==> Reads(data, descs[i], ws[i].desc)
  }

  lemma BodySplits(data: seq<byte>, from: nat, b: seq<byte>, more: seq<byte>)
    requires from <= |data| && data[from..] == b + more
    ensures from + |b| <= |data| && data[from..from + |b|] == b && data[from + |b|..] == more
  {
    assert |data| - from == |b| + |more|;
    assert data[from..from + |b|] == data[from..][..|b|];
    assert data[from + |b|..] == data[from..][|b|..];
  }

  lemma Tiled(data: seq<byte>, from: nat, d: Desc, rest: seq<Desc>)
    requires d.start == from && ValidAt(data, from, d.size, d.kind) && Tiles(data, from + d.size, rest)
    ensures Tiles(data, from, [d] + rest)
  {
    assert ([d] + rest)[1..] == rest;
  }

  lemma AllReadCons(data: seq<byte>, d: Desc, rest: seq<Desc>, ws: seq<Written>)
    requires ws != [] && Reads(data, d, ws[0].desc) && AllRead(data, rest, ws[1..])
    ensures AllRead(data, [d] + rest, ws)
  {
    forall i | 0 <= i < |ws| ensures Reads(data, ([d] + rest)[i], ws[i].desc) {
      if i > 0 {
        assert Reads(data, rest[i - 1], ws[1..][i - 1].desc);
      }
    }
  }

  /** Each chunk is a valid descriptor with the written fields. */
  ghost predicate Spelt(chunks: seq<seq<byte>>, ws: seq<Written>) {
    && |chunks| == |ws|
    && forall i :: 0 <= i < |ws| ==> SpeltAs(chunks[i], ws[i].desc)
  }

  predicate SpeltAs(b: seq<byte>, d: Descriptor) {
    Chunk(b) && b[2] == Code(d) && SameFields(b, d)
  }

  lemma SpeltTail(chunks: seq<seq<byte>>, ws: seq<Written>)
    requires Spelt(chunks, ws) && ws != []
    ensures SpeltAs(chunks[0], ws[0].desc) && Spelt(chunks[1..], ws[1..])
  {
  }

  lemma WiresSpelt(ws: seq<Written>)
    requires AllProper(ws)
    ensures Spelt(Wires(ws), ws)
  {
    forall i | 0 <= i < |ws|
      ensures SpeltAs(Wires(ws)[i], ws[i].desc)
    {
      WireChunk(ws[i]);
    }
  }

  lemma ReadCons(data: seq<byte>, from: nat, d: Desc, rest: seq<Desc>, ws: seq<Written>)
    requires ws != [] && d.start == from && Reads(data, d, ws[0].desc)
    requires Tiles(data, from + d.size, rest) && AllRead(data, rest, ws[1..])
    ensures Tiles(data, from, [d] + rest) && AllRead(data, [d] + rest, ws)
  {
    Tiled(data, from, d, rest);
    AllReadCons(data, d, rest, ws);
  }

  /** Nothing is left, and nothing was written. */
  lemma SpeltNothing(data: seq<byte>, from: nat, chunks: seq<seq<byte>>, ws: seq<Written>)
    requires from <= |data| && Spelt(chunks, ws) && data[from..] == Concat(chunks) && ws == []
    ensures Tiles(data, from, []) && AllRead(data, [], ws)
  {
    assert |data[from..]| == 0;
  }

  lemma {:induction false} SpeltTiles(data: seq<byte>, from: nat, chunks: seq<seq<byte>>, ws: seq<Written>)
    returns (descs: seq<Desc>)
    requires from <= |data| && Spelt(chunks, ws) && data[from..] == Concat(chunks)
    ensures Tiles(data, from, descs) && AllRead(data, descs, ws)
    decreases ws
  {
    descs := [];
    if ws == [] {
      SpeltNothing(data, from, chunks, ws);
    } else {
      SpeltTail(chunks, ws);
      var d := FirstRead(data, from, chunks, ws[0].desc);
      var rest := SpeltTiles(data, from + d.size, chunks[1..], ws[1..]);
      ReadCons(data, from, d, rest, ws);
      descs := [d] + rest;
    }
  }

  lemma FirstRead(data: seq<byte>, from: nat, chunks: seq<seq<byte>>, w: Descriptor) returns (d: Desc)
    requires chunks != [] && SpeltAs(chunks[0], w) && from <= |data| && data[from..] == Concat(chunks)
    ensures d.start == from && d.size == |chunks[0]| && Reads(data, d, w)
    ensures from + d.size <= |data| && data[from + d.size..] == Concat(chunks[1..])
  {
    BodySplits(data, from, chunks[0], Concat(chunks[1..]));
    d := Desc(from, |chunks[0]|, Code(w));
    ReadsBack(data, from, chunks[0], w);
  }

  lemma BodyTiles(data: seq<byte>, from: nat, ws: seq<Written>) returns (descs: seq<Desc>)
    requires from <= |data| && AllProper(ws) && data[from..] == Body(ws)
    ensures Tiles(data, from, descs) && AllRead(data, descs, ws)
  {
    WiresSpelt(ws);
    descs := SpeltTiles(data, from, Wires(ws), ws);
  }

  lemma ChunksWritten(chunks: seq<seq<byte>>) returns (ws: seq<Written>)
    requires AllChunks(chunks)
    ensures AllProper(ws) && Wires(ws) == chunks
  {
    ws := seq(|chunks|, i requires 0 <= i < |chunks| => Unwire(chunks[i]));
    forall i | 0 <= i < |chunks| ensures Proper(ws[i]) && Wire(ws[i]) == chunks[i] {
      UnwireWire(chunks[i]);
    }
  }

  ghost predicate IsManifest(data: seq<byte>, ws: seq<Written>, minor: byte) {
    AllProper(ws) && 4 + |Body(ws)| < 0x1_0000 && data == ManifestBytes(ws, minor)
  }

  lemma HeaderOfWritten(ws: seq<Written>, minor: byte)
    requires AllProper(ws) && 4 + |Body(ws)| < 0x1_0000
    ensures var data := ManifestBytes(ws, minor); HeaderOk(data) && data[MANIFEST_HEADER..] == Body(ws)
  {
  }

  /** The buffers that the scan accepts are exactly the manifests that can be written. */
  lemma AcceptedIffWritten(data: seq<byte>)
    ensures HeaderOk(data) && Tileable(data, MANIFEST_HEADER) <==> exists ws, minor :: IsManifest(data, ws, minor)
  {
    if HeaderOk(data) && Tileable(data, MANIFEST_HEADER) {
      TileableIffSpellable(data, MANIFEST_HEADER);
      var chunks :| Spells(data, MANIFEST_HEADER, chunks);
      var ws := ChunksWritten(chunks);
      assert data == data[..4] + Body(ws);
      assert IsManifest(data, ws, data[3]);
    }
    if ws, minor :| IsManifest(data, ws, minor) {
      HeaderOfWritten(ws, minor);
      var descs := BodyTiles(data, MANIFEST_HEADER, ws);
    }
  }

  // -------------------------------------------------------------- what was written

  /** The fields of a written manifest, as the building pass sees them. */
  function ItemsOf(ws: seq<Written>): (items: seq<Item>)
    ensures |items| == |ws| && forall i :: 0 <= i < |ws| ==> items[i] == ItemOf(ws[i].desc)
  {
    seq(|ws|, i requires 0 <= i < |ws| => ItemOf(ws[i].desc))
  }

  /** The texts that were written under this id, in order. */
  function TextsOf(ws: seq<Written>, id: byte): seq<seq<byte>> {
    if ws == [] then []
    else
      (if ws[0].desc.StringDesc? && ws[0].desc.id == id then [ws[0].desc.text] else []) + TextsOf(ws[1..], id)
  }

  predicate OnlyInterfaceOf(ws: seq<Written>, k: nat) {
    && k < |ws| && ws[k].desc.InterfaceDesc?
    && forall j :: 0 <= j < |ws| && ws[j].desc.InterfaceDesc? ==> j == k
  }

  /** There is one interface descriptor, and the strings that it names were written. */
  ghost predicate NamedOf(ws: seq<Written>) {
    exists k: nat :: OnlyInterfaceOf(ws, k) && NamesOf(ws, ws[k].desc.vendor, ws[k].desc.product)
  }

  predicate NamesOf(ws: seq<Written>, vendor: byte, product: byte) {
    && (vendor != 0 ==> |TextsOf(ws, vendor)| >= 1)
    && (product != 0 ==> |TextsOf(ws, product)| >= 1 + Bit(vendor == product))
  }

  /** The names that the parser reports: none for id zero, the first text for the vendor, and the next one for the
      product. */
  ghost predicate Reported(ws: seq<Written>, v: byte, p: byte, vendor: Text, product: Text) {
    && NamesOf(ws, v, p)
    && (if v == 0 then vendor == NoString else vendor == Text(TextsOf(ws, v)[0]))
    && (if p == 0 then product == NoString
        else if p == v then product == Text(TextsOf(ws, p)[1])
        else product == Text(TextsOf(ws, p)[0]))
  }

  lemma {:induction false} TextsRead(data: seq<byte>, descs: seq<Desc>, ws: seq<Written>, id: byte)
    requires AllRead(data, descs, ws)
    ensures AllValid(data, descs) && Texts(data, descs, id) == TextsOf(ws, id)
  {
    if ws != [] {
      assert forall i :: 1 <= i < |ws| ==> descs[i] == descs[1..][i - 1] && ws[i] == ws[1..][i - 1];
      TextsRead(data, descs[1..], ws[1..], id);
      assert Reads(data, descs[0], ws[0].desc);
    }
  }

  lemma InterfaceRead(data: seq<byte>, descs: seq<Desc>, ws: seq<Written>, k: nat)
    requires AllRead(data, descs, ws)
    ensures OnlyInterface(descs, k) <==> OnlyInterfaceOf(ws, k)
  {
    assert forall i :: 0 <= i < |ws| ==> Reads(data, descs[i], ws[i].desc);
    assert forall i :: 0 <= i < |ws| ==> (descs[i].kind == TYPE_INTERFACE <==> ws[i].desc.InterfaceDesc?);
  }

  lemma NamesRead(data: seq<byte>, descs: seq<Desc>, ws: seq<Written>, v: byte, p: byte, vendor: Text, product: Text)
    requires AllRead(data, descs, ws)
    ensures AllValid(data, descs) && (Names(data, descs, v, p) <==> NamesOf(ws, v, p))
    ensures NamedWith(data, descs, v, p, vendor, product) <==> Reported(ws, v, p, vendor, product)
  {
    TextsRead(data, descs, ws, v);
    TextsRead(data, descs, ws, p);
  }

  lemma ItemsRead(data: seq<byte>, descs: seq<Desc>, ws: seq<Written>)
    requires AllRead(data, descs, ws)
    ensures AllValid(data, descs) && Items(data, descs) == ItemsOf(ws)
  {
    assert forall i :: 0 <= i < |ws| ==> Reads(data, descs[i], ws[i].desc);
  }

  lemma NamedRead(data: seq<byte>, descs: seq<Desc>, ws: seq<Written>, vendor: Text, product: Text)
    requires AllRead(data, descs, ws)
    ensures AllValid(data, descs) && (Named(data, descs) <==> NamedOf(ws))
    ensures (NamedAs(data, descs, vendor, product)
             <==> forall k: nat :: OnlyInterfaceOf(ws, k) ==>
                    Reported(ws, ws[k].desc.vendor, ws[k].desc.product, vendor, product))
  {
    TextsRead(data, descs, ws, 0);
    forall k: nat ensures OnlyInterface(descs, k) <==> OnlyInterfaceOf(ws, k) {
      InterfaceRead(data, descs, ws, k);
    }
    forall k: nat | OnlyInterface(descs, k)
      ensures (Names(data, descs, data[descs[k].start + DESC_HEADER], data[descs[k].start + DESC_HEADER + 1])
               <==> NamesOf(ws, ws[k].desc.vendor, ws[k].desc.product))
      ensures (NamedWith(data, descs, data[descs[k].start + DESC_HEADER], data[descs[k].start + DESC_HEADER + 1],
                         vendor, product)
               <==> Reported(ws, ws[k].desc.vendor, ws[k].desc.product, vendor, product))
    {
      assert Reads(data, descs[k], ws[k].desc);
      NamesRead(data, descs, ws, ws[k].desc.vendor, ws[k].desc.product, vendor, product);
    }
  }

  /**
   gb_manifest_parse on a manifest that was written from the given descriptors.  It succeeds exactly when there is one
   interface descriptor, its strings are there, there is a bundle, and the host can give all that is asked for; then
   the bundles and connections are those of the written fields, and the names are the written texts.
   */
  method ParseWritten(h: Host, intf: nat, ws: seq<Written>, minor: byte, beyond: byte,
                      grant: (nat, nat) -> Services, grantBundle: nat -> bool)
    returns (result: bool, vendor: Text, product: Text)
    requires AllProper(ws) && 4 + |Body(ws)| < 0x1_0000
    requires h.Valid() && h.numCports >= 1
    requires Bundle(Home(intf, CONTROL), CONTROL) in h.bundles
    modifies h
    ensures h.Valid() && StillBounded(old(h.Bounded()), h)
    ensures (result <==>
             && NamedOf(ws) && HasBundle(ItemsOf(ws))
             && old(Ready(ItemsOf(ws), intf, h.bundles, h.connections, Room(h), grant, grantBundle)))
    ensures (result ==>
             && Complete(h.bundles, h.connections, intf, ItemsOf(ws))
             && Extends(h.connections, old(h.connections), intf, ItemsOf(ws))
             && OutsideBundles(h.bundles, intf) == OutsideBundles(old(h.bundles), intf)
             && OnlyDeclared(h.bundles, old(h.bundles), intf, ItemsOf(ws)))
    ensures (result ==> forall k: nat :: OnlyInterfaceOf(ws, k) ==>
               Reported(ws, ws[k].desc.vendor, ws[k].desc.product, vendor, product))
    ensures (!(NamedOf(ws) && HasBundle(ItemsOf(ws))) ==>
             h.connections == old(h.connections) && h.bundles == old(h.bundles))
    ensures (!result && NamedOf(ws) && HasBundle(ItemsOf(ws)) ==>
             && Bare(h.bundles, h.connections, intf)
             && h.connections == Outside(old(h.connections), intf, None)
             && h.bundles == OutsideBundles(old(h.bundles), intf))
  {
    var data := ManifestBytes(ws, minor);
    HeaderOfWritten(ws, minor);
    ghost var read := BodyTiles(data, MANIFEST_HEADER, ws);
    ghost var descs;
    result, vendor, product, descs := Parse(h, intf, data, beyond, grant, grantBundle);
    TilesUnique(data, MANIFEST_HEADER, read, descs);
    ItemsRead(data, descs, ws);
    NamedRead(data, descs, ws, vendor, product);
  }
}
