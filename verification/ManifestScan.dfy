/** The descriptor scan of an interface manifest. */
module ManifestScan {
  import opened Errno

  const MANIFEST_HEADER := 4       // struct greybus_manifest_header
  const DESC_HEADER := 4           // struct greybus_descriptor_header
  const VERSION_MAJOR := 0x00      // GREYBUS_VERSION_MAJOR

  const TYPE_INTERFACE: byte := 0x01
  const TYPE_STRING: byte := 0x02
  const TYPE_BUNDLE: byte := 0x03
  const TYPE_CPORT: byte := 0x04

  /** struct manifest_desc: where a descriptor starts, its reported size and its type. */
  datatype Desc = Desc(start: nat, size: nat, kind: byte)

  // -------------------------------------------------------------- one step

  function Align4(n: nat): nat {
    (n + 3) / 4 * 4
  }

  /** The least size that identify_descriptor accepts for a type; next is the byte after the header. */
  function ExpectedSize(kind: byte, next: byte): (n: nat)
    ensures n == 0 || n >= 8
  {
    if kind == TYPE_STRING then Align4(DESC_HEADER + 2 + next)
    else if kind == TYPE_INTERFACE || kind == TYPE_BUNDLE || kind == TYPE_CPORT then DESC_HEADER + 4
    else 0
  }

  /** The byte after the header; beyond the end of the buffer its value does not matter. */
  function NextByte(data: seq<byte>, at: nat): byte {
    if at + DESC_HEADER < |data| then data[at + DESC_HEADER] else 0
  }

  /** A valid descriptor of the given size and type stands at position at. */
  predicate ValidAt(data: seq<byte>, at: nat, size: nat, kind: byte) {
    && at + DESC_HEADER <= |data|
    && Le16(data[at], data[at + 1]) == size
    && data[at + 2] == kind
    && at + size <= |data|
    && ExpectedSize(kind, NextByte(data, at)) != 0
    && ExpectedSize(kind, NextByte(data, at)) <= size
  }

  /** identify_descriptor: the descriptor at position at, or a refusal.  beyond is whatever byte
      lies past the end of the buffer. */
  method IdentifyDescriptor(data: seq<byte>, at: nat, beyond: byte) returns (ok: bool, desc: Desc)
    requires at < |data|
    ensures ok <==> exists size, kind :: ValidAt(data, at, size, kind)
    ensures ok ==> desc.start == at && ValidAt(data, at, desc.size, desc.kind)
  {
    desc := Desc(at, 0, 0);
    if |data| - at < DESC_HEADER {
      return false, desc;
    }
    var size := Le16(data[at], data[at + 1]);
    if size > |data| - at {
      return false, desc;
    }
    var kind := data[at + 2];
    var next := if at + DESC_HEADER < |data| then data[at + DESC_HEADER] else beyond;
    var expected := ExpectedSize(kind, next);
    if expected == 0 || size < expected {
      ok := false;
      ShortIsInvalid(data, at, next);
    } else {
      ok, desc := true, Desc(at, size, kind);
      assert at + DESC_HEADER < |data|;
      assert ValidAt(data, at, size, kind);
    }
  }

  /** The verdict does not depend on the byte past the end. */
  lemma ShortIsInvalid(data: seq<byte>, at: nat, next: byte)
    requires at + DESC_HEADER <= |data|
    requires at + DESC_HEADER < |data| ==> next == data[at + DESC_HEADER]
    requires var e := ExpectedSize(data[at + 2], next); e == 0 || Le16(data[at], data[at + 1]) < e
    requires Le16(data[at], data[at + 1]) <= |data| - at
    ensures forall size, kind :: !ValidAt(data, at, size, kind)
  {
  }

  // ---------------------------------------------------------- decomposition

  /** descs cuts data[from..] into valid descriptors with no gap, no overlap and nothing left over. */
  ghost predicate Tiles(data: seq<byte>, from: nat, descs: seq<Desc>)
    decreases descs
  {
    if descs == [] then from == |data|
    else
      && descs[0].start == from
      && ValidAt(data, from, descs[0].size, descs[0].kind)
      && Tiles(data, from + descs[0].size, descs[1..])
  }

  lemma {:induction false} TilesAppend(data: seq<byte>, from: nat, pre: seq<Desc>, d: Desc)
    requires Prefix(data, from, pre, d.start) && ValidAt(data, d.start, d.size, d.kind)
    ensures Prefix(data, from, pre + [d], d.start + d.size)
    decreases pre
  {
    if pre == [] {
      assert ([d] + [])[1..] == [];
      assert pre + [d] == [d];
    } else {
      TilesAppend(data, from + pre[0].size, pre[1..], d);
      assert (pre + [d])[1..] == pre[1..] + [d];
    }
  }

  /** descs cuts data[from..to] into valid descriptors. */
  ghost predicate Prefix(data: seq<byte>, from: nat, descs: seq<Desc>, to: nat)
    decreases descs
  {
    if descs == [] then from == to
    else
      && descs[0].start == from
      && ValidAt(data, from, descs[0].size, descs[0].kind)
      && Prefix(data, from + descs[0].size, descs[1..], to)
  }

  lemma {:induction false} PrefixTiles(data: seq<byte>, from: nat, descs: seq<Desc>)
    ensures Tiles(data, from, descs) <==> Prefix(data, from, descs, |data|)
    decreases descs
  {
    if descs != [] {
      PrefixTiles(data, from + descs[0].size, descs[1..]);
    }
  }

  /** There is at most one decomposition. */
  lemma {:induction false} TilesUnique(data: seq<byte>, from: nat, a: seq<Desc>, b: seq<Desc>)
    requires Tiles(data, from, a) && Tiles(data, from, b)
    ensures a == b
    decreases a
  {
    if a != [] && b != [] {
      assert a[0] == b[0];
      TilesUnique(data, from + a[0].size, a[1..], b[1..]);
    }
  }

  /** Every decomposition passes through a valid descriptor at the end of a partial one. */
  lemma {:induction false} TilesContinues(data: seq<byte>, from: nat, pre: seq<Desc>, to: nat, descs: seq<Desc>)
    requires Prefix(data, from, pre, to) && Tiles(data, from, descs)
    ensures exists rest :: Tiles(data, to, rest)
    decreases pre
  {
    if pre == [] {
      assert Tiles(data, to, descs);
    } else {
      PrefixInside(data, from, pre, to);
      assert descs != [];
      TilesContinues(data, from + pre[0].size, pre[1..], to, descs[1..]);
    }
  }

  lemma {:induction false} PrefixInside(data: seq<byte>, from: nat, pre: seq<Desc>, to: nat)
    requires Prefix(data, from, pre, to)
    ensures pre != [] ==> from + 8 <= to
    ensures pre != [] ==> to <= |data|
    ensures pre == [] ==> from == to
    decreases pre
  {
    if pre != [] {
      PrefixInside(data, from + pre[0].size, pre[1..], to);
    }
  }

  // ------------------------------------------------------------ what tiling means

  /** Descriptors that tile data are consecutive, disjoint and cover every byte after from. */
  lemma {:induction false} TilesCover(data: seq<byte>, from: nat, descs: seq<Desc>, i: nat)
    requires Tiles(data, from, descs) && from <= i < |data|
    ensures exists k :: 0 <= k < |descs| && descs[k].start <= i < descs[k].start + descs[k].size
    decreases descs
  {
    if descs == [] {
      assert false;
    } else if i < from + descs[0].size {
      assert descs[0].start <= i;
    } else {
      TilesCover(data, from + descs[0].size, descs[1..], i);
      var k :| 0 <= k < |descs[1..]| && descs[1..][k].start <= i < descs[1..][k].start + descs[1..][k].size;
      assert descs[k + 1] == descs[1..][k];
    }
  }

  lemma {:induction false} TilesOrdered(data: seq<byte>, from: nat, descs: seq<Desc>, i: nat, j: nat)
    requires Tiles(data, from, descs) && i < j < |descs|
    ensures from <= descs[i].start && descs[i].start + descs[i].size <= descs[j].start
    decreases descs
  {
    if i == 0 {
      TilesAfter(data, from + descs[0].size, descs[1..], j - 1);
    } else {
      TilesOrdered(data, from + descs[0].size, descs[1..], i - 1, j - 1);
    }
  }

  lemma {:induction false} TilesAfter(data: seq<byte>, from: nat, descs: seq<Desc>, j: nat)
    requires Tiles(data, from, descs) && j < |descs|
    ensures from <= descs[j].start
    decreases descs
  {
    if j > 0 {
      TilesAfter(data, from + descs[0].size, descs[1..], j - 1);
    }
  }

  // ----------------------------------------------- descriptors as byte strings

  /** b is, on its own, one valid descriptor. */
  predicate Chunk(b: seq<byte>) {
    |b| >= 8 && ValidAt(b, 0, |b|, b[2])
  }

  function Concat(chunks: seq<seq<byte>>): seq<byte> {
    if chunks == [] then [] else chunks[0] + Concat(chunks[1..])
  }

  ghost predicate AllChunks(chunks: seq<seq<byte>>) {
    forall i :: 0 <= i < |chunks| ==> Chunk(chunks[i])
  }

  /** A descriptor is valid in its place exactly when its own bytes are a descriptor. */
  lemma ChunkAt(data: seq<byte>, at: nat, size: nat)
    requires at + size <= |data| && size >= 8
    ensures Chunk(data[at..at + size]) <==> ValidAt(data, at, size, data[at + 2])
  {
  }

  lemma {:induction false} ConcatTiles(data: seq<byte>, from: nat, chunks: seq<seq<byte>>) returns (descs: seq<Desc>)
    requires from <= |data| && data[from..] == Concat(chunks) && AllChunks(chunks)
    ensures Tiles(data, from, descs)
    decreases chunks
  {
    if chunks == [] {
      assert |data[from..]| == 0;
      descs := [];
    } else {
      var b := chunks[0];
      assert Chunk(b);
      assert data[from..] == b + Concat(chunks[1..]);
      var size := |b|;
      assert |data| - from == size + |Concat(chunks[1..])|;
      assert data[from..][..size] == b && data[from..][size..] == Concat(chunks[1..]);
      assert data[from..from + size] == data[from..][..size];
      assert data[from + size..] == data[from..][size..];
      ChunkAt(data, from, size);
      var rest := ConcatTiles(data, from + size, chunks[1..]);
      descs := [Desc(from, size, data[from + 2])] + rest;
      assert descs[1..] == rest;
    }
  }

  lemma {:induction false} TilesConcat(data: seq<byte>, from: nat, descs: seq<Desc>) returns (chunks: seq<seq<byte>>)
    requires Tiles(data, from, descs) && from <= |data|
    ensures AllChunks(chunks) && data[from..] == Concat(chunks)
    decreases descs
  {
    if descs == [] {
      chunks := [];
    } else {
      var size := descs[0].size;
      var rest := TilesConcat(data, from + size, descs[1..]);
      ChunkAt(data, from, size);
      var b := data[from..from + size];
      chunks := [b] + rest;
      assert chunks[1..] == rest;
      assert data[from..] == b + data[from + size..];
    }
  }

  ghost predicate Tileable(data: seq<byte>, from: nat) {
    exists ds :: Tiles(data, from, ds)
  }

  /** chunks spell out the bytes after from, each of them a valid descriptor. */
  ghost predicate Spells(data: seq<byte>, from: nat, chunks: seq<seq<byte>>)
    requires from <= |data|
  {
    AllChunks(chunks) && data[from..] == Concat(chunks)
  }

  ghost predicate Spellable(data: seq<byte>, from: nat)
    requires from <= |data|
  {
    exists chunks :: Spells(data, from, chunks)
  }

  /** The decompositions that the scan looks for are those of the bytes into valid descriptors. */
  lemma TileableIffSpellable(data: seq<byte>, from: nat)
    requires from <= |data|
    ensures Tileable(data, from) <==> Spellable(data, from)
  {
    if Tileable(data, from) {
      var ds :| Tiles(data, from, ds);
      var chunks := TilesConcat(data, from, ds);
      assert Spells(data, from, chunks);
    }
    if Spellable(data, from) {
      var chunks :| Spells(data, from, chunks);
      var ds := ConcatTiles(data, from, chunks);
    }
  }

  /** If no valid descriptor stands where a partial decomposition ends, there is no whole one. */
  lemma StuckIsUntileable(data: seq<byte>, pre: seq<Desc>, at: nat)
    requires Prefix(data, MANIFEST_HEADER, pre, at) && at < |data|
    requires forall size, kind :: !ValidAt(data, at, size, kind)
    ensures forall ds :: !Tiles(data, MANIFEST_HEADER, ds)
  {
    forall ds ensures !Tiles(data, MANIFEST_HEADER, ds) {
      if Tiles(data, MANIFEST_HEADER, ds) {
        TilesContinues(data, MANIFEST_HEADER, pre, at, ds);
      }
    }
  }

  // --------------------------------------------------------------- the scan

  /** The size field matches, and the major version is supported. */
  predicate HeaderOk(data: seq<byte>) {
    |data| >= MANIFEST_HEADER && Le16(data[0], data[1]) == |data| && data[2] <= VERSION_MAJOR
  }

  /**
   The first pass of gb_manifest_parse.  It accepts a buffer exactly when its header is right and
   the rest is a concatenation of valid descriptors, and then lists exactly that decomposition, in
   order.  Each round consumes at least eight bytes.
   */
  method Scan(data: seq<byte>, beyond: byte) returns (ok: bool, descs: seq<Desc>)
    ensures ok <==> HeaderOk(data) && Tileable(data, MANIFEST_HEADER)
    ensures ok ==> Tiles(data, MANIFEST_HEADER, descs)
  {
    descs := [];
    if |data| < MANIFEST_HEADER || Le16(data[0], data[1]) != |data| || data[2] > VERSION_MAJOR {
      return false, descs;
    }
    var at := MANIFEST_HEADER;
    while at < |data|
      invariant MANIFEST_HEADER <= at <= |data|
      invariant Prefix(data, MANIFEST_HEADER, descs, at)
      decreases |data| - at
    {
      var good, desc := IdentifyDescriptor(data, at, beyond);
      if !good {
        StuckIsUntileable(data, descs, at);
        return false, descs;
      }
      TilesAppend(data, MANIFEST_HEADER, descs, desc);
      descs := descs + [desc];
      at := at + desc.size;
    }
    PrefixTiles(data, MANIFEST_HEADER, descs);
    ok := true;
  }
}
