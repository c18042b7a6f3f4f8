/** Splitting an SDIO data transfer into messages that fit the host device. */
module Sdio {
  import opened Arithmetic
  import opened Errno

  const REQUEST_SIZE := 5        // sizeof(struct gb_sdio_transfer_request)
  const RESPONSE_SIZE := 4       // sizeof(struct gb_sdio_transfer_response)

  function Min(a: int, b: int): int {
    if a < b then a else b
  }

  function Max(a: int, b: int): int {
    if a < b then b else a
  }

  // ----------------------------------------------------------------- limits

  predicate IsPow2(p: nat) {
    p == 1 || (p > 0 && p % 2 == 0 && IsPow2(p / 2))
  }

  /** rounddown_pow_of_two: the largest power of two that is not above n. */
  function RoundDown(n: nat): (p: nat)
    requires n >= 1
    ensures p <= n < 2 * p && IsPow2(p)
  {
    if n == 1 then 1 else 2 * RoundDown(n / 2)
  }

  /** Powers of two are at least a factor of two apart. */
  lemma {:induction false} Pow2Apart(p: nat, q: nat)
    requires IsPow2(p) && IsPow2(q) && q < 2 * p
    ensures q <= p
  {
    if p > 1 && q > 1 {
      Pow2Apart(p / 2, q / 2);
    }
  }

  /** A difference in size_t. */
  function SizeT(n: int): nat {
    n % 0x1_0000_0000_0000_0000
  }

  /** The limits that gb_sdio_get_caps derives from the largest payload and the module's answer; data_max is a u16. */
  function DataMax(payloadMax: u16): u16 {
    Min(SizeT(payloadMax - REQUEST_SIZE), SizeT(payloadMax - RESPONSE_SIZE)) % 0x1_0000
  }

  function MaxBlkSize(dataMax: u16, answer: u16): nat {
    RoundDown(Max(512, Min(answer, dataMax)))
  }

  /** n bytes of data fit, next to the five bytes of a request or the four bytes of a response. */
  predicate DataFits(n: nat, payloadMax: u16) {
    n + 5 <= payloadMax && n + 4 <= payloadMax
  }

  /** data_max is the largest amount of data that fits, exactly unless the payload cannot even hold a request without
      data; then the subtraction goes below zero. */
  lemma DataMaxExact(payloadMax: u16)
    ensures (forall n: nat :: n <= DataMax(payloadMax) <==> DataFits(n, payloadMax)) <==> payloadMax >= 5
  {
    if payloadMax < 5 {
      assert 0 <= DataMax(payloadMax) && !DataFits(0, payloadMax);
    } else {
      assert DataMax(payloadMax) == payloadMax - 5;
    }
  }

  /** The block size is the largest power of two up to the smaller of the module's answer and the room for data, but
      at least 512. */
  lemma BlockSize(dataMax: u16, answer: u16)
    ensures var room := if answer <= dataMax then answer else dataMax;
      var cap := if room <= 512 then 512 else room;
      var size := MaxBlkSize(dataMax, answer);
      IsPow2(size) && size <= cap < 2 * size
  {
  }

  /** The largest block size that the limits allow fits into one message exactly when the host device has room
      for 512 bytes of data, and it is never below 512. */
  lemma BlockFits(payloadMax: u16, answer: u16)
    ensures MaxBlkSize(DataMax(payloadMax), answer) <= DataMax(payloadMax) <==> DataMax(payloadMax) >= 512
    ensures MaxBlkSize(DataMax(payloadMax), answer) >= 512
  {
    var dataMax := DataMax(payloadMax);
    FiveTwelve();
    var cap := Max(512, Min(answer, dataMax));
    assert dataMax >= 512 ==> cap <= dataMax;
    AtLeastPow2(cap, 512);
  }

  lemma FiveTwelve()
    ensures IsPow2(512)
  {
  }

  lemma AtLeastPow2(n: nat, q: nat)
    requires IsPow2(q) && 1 <= q <= n
    ensures RoundDown(n) >= q
  {
  }

  // ----------------------------------------------------------------- chunks

  /** One call of _gb_sdio_recv or _gb_sdio_send. */
  datatype Chunk = Chunk(skip: nat, len: nat, nblocks: nat)

  /** The chunk the loop forms with left bytes to go, in the source's u16 arithmetic. */
  function NextChunk(left: nat, skip: nat, blksz: nat, dataMax: nat): Chunk
    requires blksz > 0
  {
    var nblocks := Whole(Min(left, dataMax), blksz) % 0x1_0000;
    Chunk(skip, nblocks * blksz, nblocks)
  }

  /** Whole blocks in n bytes. */
  function Whole(n: nat, blksz: nat): nat
    requires blksz > 0
  {
    n / blksz
  }

  lemma QuotientBounds(n: nat, b: nat)
    requires b >= 1
    ensures Whole(n, b) * b <= n && Whole(n, b) <= n
    ensures Whole(n, b) >= 1 <==> n >= b
    ensures n < Whole(n, b) * b + b
  {
    assert n == n / b * b + n % b;
    MulAtLeast(n / b, b);
    if n / b >= 1 { AtMost(1, n / b, b); }
  }

  lemma AtMost(a: nat, c: nat, b: nat)
    requires a <= c && b >= 1
    ensures a * b <= c * b
  {
    if a < c { MulGrows(a, c, b); }
  }

  /** q whole blocks fit into togo blocks. */
  lemma BlocksWithin(q: nat, togo: nat, b: nat)
    requires b >= 1 && q * b <= togo * b
    ensures q <= togo && togo * b - q * b == (togo - q) * b
  {
    if q > togo { MulGrows(togo, q, b); }
    assert (togo - q) * b == togo * b - q * b;
  }

  /** A chunk is as the loop needs it: whole blocks that fit into one message, without truncation of their number to
      16 bits, and at least one of them exactly when a block fits at all. */
  predicate Fine(c: Chunk, blksz: nat, dataMax: nat) {
    && c.len == c.nblocks * blksz && c.len <= dataMax && c.nblocks < 0x1_0000
    && (c.nblocks >= 1 <==> blksz <= dataMax) && (c.len > 0 <==> c.nblocks >= 1)
  }

  /** With whole blocks to go the next chunk is fine, and leaves whole blocks to go. */
  lemma NextChunkFine(left: nat, skip: nat, blksz: u16, dataMax: u16, togo: nat)
    requires blksz >= 1 && togo >= 1 && left == togo * blksz
    ensures var c := NextChunk(left, skip, blksz, dataMax);
      && c.skip == skip && Fine(c, blksz, dataMax) && c.len <= left
      && c.nblocks <= togo && left - c.len == (togo - c.nblocks) * blksz
      && (c.len == left || c.len + blksz > dataMax)
  {
    var q := Whole(Min(left, dataMax), blksz);
    QuotientBounds(Min(left, dataMax), blksz);
    AtMost(1, togo, blksz);
    WholeFine(left, skip, q, blksz, dataMax, togo);
    assert q % 0x1_0000 == q;
    if left <= dataMax && q < togo { MulGrows(q, togo, blksz); }
  }

  lemma WholeFine(left: nat, skip: nat, q: nat, blksz: u16, dataMax: u16, togo: nat)
    requires blksz >= 1 && left == togo * blksz && left >= blksz
    requires q * blksz <= Min(left, dataMax) && q <= dataMax && (q >= 1 <==> Min(left, dataMax) >= blksz)
    ensures var c := Chunk(skip, q * blksz, q);
      && Fine(c, blksz, dataMax) && c.len <= left && q <= togo && left - c.len == (togo - q) * blksz
  {
    BlocksWithin(q, togo, blksz);
    if q >= 1 { AtMost(1, q, blksz); }
  }

  /** The loop makes progress exactly when a block fits into one message. */
  lemma ProgressIffFits(left: nat, skip: nat, blksz: u16, dataMax: u16, togo: nat)
    requires blksz >= 1 && togo >= 1 && left == togo * blksz
    ensures NextChunk(left, skip, blksz, dataMax).len > 0 <==> blksz <= dataMax
  {
    NextChunkFine(left, skip, blksz, dataMax, togo);
  }

  /** The source's 32-bit product of block size and block count does not wrap: both are 16-bit quantities. */
  lemma ProductFits(blksz: u16, blocks: u16)
    ensures blocks * blksz < 0x1_0000_0000
  {
    if blksz > 0 {
      AtMost(blocks, 0xFFFF, blksz);
    }
  }

  /** Chunks that cut the bytes from..to into consecutive fine pieces. */
  predicate Cuts(chunks: seq<Chunk>, from: nat, to: nat, blksz: nat, dataMax: nat)
    decreases chunks
  {
    if chunks == [] then from == to
    else
      && chunks[0].skip == from && Fine(chunks[0], blksz, dataMax)
      && Cuts(chunks[1..], from + chunks[0].len, to, blksz, dataMax)
  }

  lemma {:induction false} CutsSnoc(chunks: seq<Chunk>, from: nat, c: Chunk, blksz: nat, dataMax: nat)
    requires Cuts(chunks, from, c.skip, blksz, dataMax) && Fine(c, blksz, dataMax)
    ensures Cuts(chunks + [c], from, c.skip + c.len, blksz, dataMax)
    decreases chunks
  {
    if chunks == [] {
      assert [c][1..] == [];
    } else {
      CutsSnoc(chunks[1..], from + chunks[0].len, c, blksz, dataMax);
      assert (chunks + [c])[1..] == chunks[1..] + [c];
    }
  }

  /** Chunks are disjoint and in order. */
  lemma {:induction false} CutsDisjoint(chunks: seq<Chunk>, from: nat, to: nat, blksz: nat, dataMax: nat, i: nat,
                                        j: nat)
    requires Cuts(chunks, from, to, blksz, dataMax) && i < j < |chunks|
    ensures from <= chunks[i].skip && chunks[i].skip + chunks[i].len <= chunks[j].skip
    ensures chunks[j].skip + chunks[j].len <= to
    decreases chunks
  {
    if i == 0 {
      CutsInside(chunks[1..], from + chunks[0].len, to, blksz, dataMax, j - 1);
    } else {
      CutsDisjoint(chunks[1..], from + chunks[0].len, to, blksz, dataMax, i - 1, j - 1);
    }
  }

  lemma {:induction false} CutsInside(chunks: seq<Chunk>, from: nat, to: nat, blksz: nat, dataMax: nat, j: nat)
    requires Cuts(chunks, from, to, blksz, dataMax) && j < |chunks|
    ensures from <= chunks[j].skip && chunks[j].skip + chunks[j].len <= to
    decreases chunks
  {
    if j > 0 {
      CutsInside(chunks[1..], from + chunks[0].len, to, blksz, dataMax, j - 1);
    } else {
      CutsEnd(chunks[1..], from + chunks[0].len, to, blksz, dataMax);
    }
  }

  lemma {:induction false} CutsEnd(chunks: seq<Chunk>, from: nat, to: nat, blksz: nat, dataMax: nat)
    requires Cuts(chunks, from, to, blksz, dataMax)
    ensures from <= to
    decreases chunks
  {
    if chunks != [] {
      CutsEnd(chunks[1..], from + chunks[0].len, to, blksz, dataMax);
    }
  }

  /** Every chunk takes all the blocks that fit into its message, or all that are left. */
  predicate Full(chunks: seq<Chunk>, total: nat, blksz: nat, dataMax: nat) {
    forall i :: 0 <= i < |chunks| ==>
      chunks[i].skip + chunks[i].len == total || chunks[i].len + blksz > dataMax
  }

  // --------------------------------------------------------------- transfer

  /** Between two rounds: chunks have moved the first skip bytes, togo blocks of blksz bytes are left. */
  predicate Underway(chunks: seq<Chunk>, skip: nat, left: nat, togo: nat, total: nat, blksz: nat, blocks: nat,
                     dataMax: nat) {
    && Cuts(chunks, 0, skip, blksz, dataMax) && Full(chunks, total, blksz, dataMax)
    && left == togo * blksz && skip + left == total
    && (left > 0 <==> togo >= 1 && blksz >= 1)
    && (blksz <= dataMax ==> |chunks| + togo <= blocks)
    && (blksz > dataMax ==> skip == 0)
  }

  lemma UnderwayStart(blksz: nat, blocks: nat, dataMax: nat)
    ensures Underway([], 0, blocks * blksz, blocks, blocks * blksz, blksz, blocks, dataMax)
  {
    if blocks >= 1 && blksz >= 1 { AtMost(1, blocks, blksz); }
  }

  lemma UnderwayNext(chunks: seq<Chunk>, skip: nat, left: nat, togo: nat, total: nat, blksz: u16, blocks: nat,
                     dataMax: u16)
    requires Underway(chunks, skip, left, togo, total, blksz, blocks, dataMax) && left > 0
    ensures var c := NextChunk(left, skip, blksz, dataMax);
      && c.len <= left && c.nblocks <= togo
      && Underway(chunks + [c], skip + c.len, left - c.len, togo - c.nblocks, total, blksz, blocks, dataMax)
  {
    var c := NextChunk(left, skip, blksz, dataMax);
    NextChunkFine(left, skip, blksz, dataMax, togo);
    CutsSnoc(chunks, 0, c, blksz, dataMax);
    if togo - c.nblocks >= 1 { AtMost(1, togo - c.nblocks, blksz); }
  }

  /**
   gb_sdio_transfer, over its first rounds.  stop says whether a stop request is pending before the i-th chunk, result
   is what the i-th chunk's operation returns.  The completed chunks are consecutive, whole-block, within the
   message limit and as large as it allows; success covers exactly blksz * blocks bytes; and on a stop or an error
   bytes_xfered has grown by exactly the completed prefix.  If a block fits into a message, as many rounds as there
   are blocks are enough; if none does, nothing is ever transferred, and only a stop or an error ends the loop.
   */
  method Transfer(blksz: u16, blocks: u16, singleOp: bool, dataMax: u16, bytesXfered: nat,
                  stop: nat -> bool, result: nat -> int, rounds: nat)
    returns (done: bool, ret: int, xfered: nat, chunks: seq<Chunk>)
    ensures xfered >= bytesXfered && Cuts(chunks, 0, xfered - bytesXfered, blksz, dataMax)
    ensures Full(chunks, blocks * blksz, blksz, dataMax)
    ensures forall i :: 0 <= i < |chunks| ==> !stop(i) && result(i) >= 0
    ensures blocks * blksz < 0x1_0000_0000
    ensures singleOp && blocks > 1 ==> done && ret == ETIMEDOUT && chunks == []
    ensures !(singleOp && blocks > 1) && done && ret >= 0 ==> xfered == bytesXfered + blocks * blksz
    ensures done && ret >= 0 ==> ret == if chunks == [] then 0 else result(|chunks| - 1)
    ensures !(singleOp && blocks > 1) && done && ret < 0 ==> xfered < bytesXfered + blocks * blksz
    ensures (!(singleOp && blocks > 1) && done && ret < 0 ==>
             ret == if stop(|chunks|) then EINTR else result(|chunks|))
    ensures !done ==> |chunks| == rounds && xfered < bytesXfered + blocks * blksz
    ensures blksz <= dataMax && rounds >= blocks ==> done
    ensures blksz > dataMax ==> xfered == bytesXfered
  {
    ProductFits(blksz, blocks);
    done, ret, xfered, chunks := true, 0, bytesXfered, [];
    if singleOp && blocks > 1 {
      ret := ETIMEDOUT;
      return;
    }
    var total := blocks * blksz;
    var left: nat, skip: nat := total, 0;
    ghost var togo: nat := blocks;
    UnderwayStart(blksz, blocks, dataMax);
    while left != 0
      invariant Underway(chunks, skip, left, togo, total, blksz, blocks, dataMax)
      invariant xfered == bytesXfered + skip && ret >= 0 && |chunks| <= rounds
      invariant ret == if chunks == [] then 0 else result(|chunks| - 1)
      invariant forall i :: 0 <= i < |chunks| ==> !stop(i) && result(i) >= 0
      decreases rounds - |chunks|
    {
      if |chunks| == rounds {
        done := false;
        return;
      }
      if stop(|chunks|) {
        ret := EINTR;
        return;
      }
      var c := NextChunk(left, skip, blksz, dataMax);
      UnderwayNext(chunks, skip, left, togo, total, blksz, blocks, dataMax);
      ret := result(|chunks|);
      if ret < 0 {
        return;
      }
      xfered := xfered + c.len;
      left := left - c.len;
      skip := skip + c.len;
      togo := togo - c.nblocks;
      chunks := chunks + [c];
    }
  }
}
