/** Gathering an I2C transfer into one request and scattering its response. */
module I2c {
  import opened Errno

  const OP_SIZE := 6              // sizeof(struct gb_i2c_transfer_op)
  const HEADER := 8               // sizeof(struct gb_operation_msg_hdr)
  const U32 := 0x1_0000_0000

  /** struct i2c_msg; |buf| is its len field. */
  datatype Msg = Msg(addr: u16, flags: u16, buf: seq<byte>)

  /** struct gb_i2c_transfer_op. */
  datatype Op = Op(addr: u16, flags: u16, size: u16)

  /** The I2C_M_RD flag is bit 0. */
  predicate IsRead(m: Msg) {
    m.flags % 2 == 1
  }

  predicate WellFormed(msgs: seq<Msg>) {
    forall i :: 0 <= i < |msgs| ==> |msgs[i].buf| < 0x1_0000
  }

  // ----------------------------------------------------------- wire format

  function Bytes16(n: u16): (b: seq<byte>)
    ensures |b| == 2 && Le16(b[0], b[1]) == n
  {
    [n % 0x100, n / 0x100]
  }

  function OpOf(m: Msg): Op
    requires |m.buf| < 0x1_0000
  {
    Op(m.addr, m.flags, |m.buf|)
  }

  function OpBytes(op: Op): (b: seq<byte>)
    ensures |b| == OP_SIZE
  {
    Bytes16(op.addr) + Bytes16(op.flags) + Bytes16(op.size)
  }

  function Ops(msgs: seq<Msg>): (ops: seq<Op>)
    requires WellFormed(msgs)
    ensures |ops| == |msgs|
    ensures forall i :: 0 <= i < |msgs| ==> ops[i] == OpOf(msgs[i])
  {
    seq(|msgs|, i requires 0 <= i < |msgs| => OpOf(msgs[i]))
  }

  function OpsBytes(ops: seq<Op>): (b: seq<byte>)
    ensures |b| == OP_SIZE * |ops|
  {
    if ops == [] then [] else OpsBytes(ops[..|ops| - 1]) + OpBytes(ops[|ops| - 1])
  }

  /** Concatenated data of the write messages, in order. */
  function WriteData(msgs: seq<Msg>): seq<byte> {
    if msgs == [] then []
    else WriteData(msgs[..|msgs| - 1]) + (if IsRead(msgs[|msgs| - 1]) then [] else msgs[|msgs| - 1].buf)
  }

  /** Concatenated buffers of the read messages, in order. */
  function ReadData(msgs: seq<Msg>): seq<byte> {
    if msgs == [] then []
    else ReadData(msgs[..|msgs| - 1]) + (if IsRead(msgs[|msgs| - 1]) then msgs[|msgs| - 1].buf else [])
  }

  lemma DataSnoc(msgs: seq<Msg>, m: Msg)
    ensures WriteData(msgs + [m]) == WriteData(msgs) + (if IsRead(m) then [] else m.buf)
    ensures ReadData(msgs + [m]) == ReadData(msgs) + (if IsRead(m) then m.buf else [])
  {
  }

  lemma {:induction false} DataPrefix(msgs: seq<Msg>, i: nat)
    requires i <= |msgs|
    ensures |WriteData(msgs[..i])| <= |WriteData(msgs)| && |ReadData(msgs[..i])| <= |ReadData(msgs)|
  {
    if i == |msgs| {
      assert msgs[..i] == msgs;
    } else {
      var rest := msgs[..|msgs| - 1];
      DataPrefix(rest, i);
      assert rest[..i] == msgs[..i];
    }
  }

  /** What the next message adds, and that it stays inside the whole. */
  lemma DataStep(msgs: seq<Msg>, i: nat)
    requires i < |msgs|
    ensures WriteData(msgs[..i + 1]) == WriteData(msgs[..i]) + (if IsRead(msgs[i]) then [] else msgs[i].buf)
    ensures ReadData(msgs[..i + 1]) == ReadData(msgs[..i]) + (if IsRead(msgs[i]) then msgs[i].buf else [])
    ensures |WriteData(msgs[..i + 1])| <= |WriteData(msgs)| && |ReadData(msgs[..i + 1])| <= |ReadData(msgs)|
  {
    assert msgs[..i + 1] == msgs[..i] + [msgs[i]];
    DataSnoc(msgs[..i], msgs[i]);
    DataPrefix(msgs, i + 1);
  }

  // --------------------------------------------------------- receiving side

  /** What the other end makes of a request: its operations and the data that follows them. */
  function Decode(b: seq<byte>): (seq<Op>, seq<byte>)
    requires |b| >= 2 && |b| >= 2 + OP_SIZE * Le16(b[0], b[1])
  {
    var n := Le16(b[0], b[1]);
    (DecodeOps(b, n), b[2 + OP_SIZE * n..])
  }

  function DecodeOps(b: seq<byte>, n: nat): (ops: seq<Op>)
    requires |b| >= 2 + OP_SIZE * n
    ensures |ops| == n
  {
    seq(n, i requires 0 <= i < n => DecodeOp(b, 2 + OP_SIZE * i))
  }

  function DecodeOp(b: seq<byte>, at: nat): Op
    requires at + OP_SIZE <= |b|
  {
    Op(Le16(b[at], b[at + 1]), Le16(b[at + 2], b[at + 3]), Le16(b[at + 4], b[at + 5]))
  }

  /** The reference encoding of a request. */
  function Encode(msgs: seq<Msg>): seq<byte>
    requires WellFormed(msgs) && |msgs| < 0x1_0000
  {
    Bytes16(|msgs|) + OpsBytes(Ops(msgs)) + WriteData(msgs)
  }

  lemma {:induction false} OpsBytesAt(ops: seq<Op>, i: nat)
    requires i < |ops|
    ensures OpsBytes(ops)[OP_SIZE * i..OP_SIZE * i + OP_SIZE] == OpBytes(ops[i])
  {
    var rest := ops[..|ops| - 1];
    var pre, last := OpsBytes(rest), OpBytes(ops[|ops| - 1]);
    if i == |ops| - 1 {
      assert (pre + last)[OP_SIZE * i..] == last;
    } else {
      OpsBytesAt(rest, i);
      assert (pre + last)[OP_SIZE * i..OP_SIZE * i + OP_SIZE] == pre[OP_SIZE * i..OP_SIZE * i + OP_SIZE];
    }
  }

  lemma DecodeOpOf(b: seq<byte>, at: nat, op: Op)
    requires at + OP_SIZE <= |b| && b[at..at + OP_SIZE] == OpBytes(op)
    ensures DecodeOp(b, at) == op
  {
  }

  /**
   The request decodes back to the same addresses, flags and sizes, in order, and to the concatenation
   of the write data.
   */
  lemma RoundTrip(msgs: seq<Msg>)
    requires WellFormed(msgs) && |msgs| < 0x1_0000
    ensures var b := Encode(msgs);
      && |b| >= 2 && |b| >= 2 + OP_SIZE * Le16(b[0], b[1])
      && Decode(b) == (Ops(msgs), WriteData(msgs))
  {
    var n, ops := |msgs|, Ops(msgs);
    var b := Encode(msgs);
    assert b[0] == Bytes16(n)[0] && b[1] == Bytes16(n)[1];
    forall i | 0 <= i < n ensures DecodeOp(b, 2 + OP_SIZE * i) == ops[i] {
      OpsBytesAt(ops, i);
      var at := 2 + OP_SIZE * i;
      assert b[at..at + OP_SIZE] == OpsBytes(ops)[OP_SIZE * i..OP_SIZE * i + OP_SIZE];
      DecodeOpOf(b, at, ops[i]);
    }
    assert DecodeOps(b, n) == ops;
    assert b[2 + OP_SIZE * n..] == WriteData(msgs);
  }

  /** Where the other end finds the data of operation i: behind that of the earlier writes, whose flags are even. */
  function WriteOffset(ops: seq<Op>, i: nat): nat
    requires i <= |ops|
  {
    if i == 0 then 0 else WriteOffset(ops, i - 1) + if ops[i - 1].flags % 2 == 0 then ops[i - 1].size else 0
  }

  lemma {:induction false} WriteOffsetIs(msgs: seq<Msg>, i: nat)
    requires WellFormed(msgs) && i <= |msgs|
    ensures WriteOffset(Ops(msgs), i) == |WriteData(msgs[..i])|
  {
    if i > 0 {
      WriteOffsetIs(msgs, i - 1);
      assert msgs[..i] == msgs[..i - 1] + [msgs[i - 1]];
      DataSnoc(msgs[..i - 1], msgs[i - 1]);
    }
  }

  lemma {:induction false} WritePrefix(msgs: seq<Msg>, i: nat)
    requires i <= |msgs|
    ensures WriteData(msgs[..i]) <= WriteData(msgs)
  {
    if i == |msgs| {
      assert msgs[..i] == msgs;
    } else {
      var rest := msgs[..|msgs| - 1];
      WritePrefix(rest, i);
      assert rest[..i] == msgs[..i];
    }
  }

  /** The other end finds the data of every write, from the decoded operations alone. */
  lemma WritesFound(msgs: seq<Msg>, i: nat)
    requires WellFormed(msgs) && |msgs| < 0x1_0000 && i < |msgs| && msgs[i].flags % 2 == 0
    ensures var b := Encode(msgs);
      && |b| >= 2 && |b| >= 2 + OP_SIZE * Le16(b[0], b[1])
      && var (ops, data) := Decode(b);
         && |ops| == |msgs| && WriteOffset(ops, i) + ops[i].size <= |data|
         && data[WriteOffset(ops, i)..WriteOffset(ops, i) + ops[i].size] == msgs[i].buf
  {
    RoundTrip(msgs);
    WriteOffsetIs(msgs, i);
    WriteInPlace(msgs, i);
  }

  lemma WriteInPlace(msgs: seq<Msg>, i: nat)
    requires i < |msgs| && msgs[i].flags % 2 == 0
    ensures var at, n := |WriteData(msgs[..i])|, |msgs[i].buf|;
      at + n <= |WriteData(msgs)| && WriteData(msgs)[at..at + n] == msgs[i].buf
  {
    assert msgs[..i + 1] == msgs[..i] + [msgs[i]];
    DataSnoc(msgs[..i], msgs[i]);
    WritePrefix(msgs, i + 1);
    MiddleOf(WriteData(msgs), WriteData(msgs[..i]), msgs[i].buf);
  }

  lemma MiddleOf(data: seq<byte>, a: seq<byte>, b: seq<byte>)
    requires a + b <= data
    ensures |a| + |b| <= |data| && data[|a|..|a| + |b|] == b
  {
    assert data[|a|..|a| + |b|] == (a + b)[|a|..];
  }

  // ------------------------------------------------------------- size sums

  lemma {:induction false} DataBounded(msgs: seq<Msg>)
    requires WellFormed(msgs)
    ensures |WriteData(msgs)| + |ReadData(msgs)| <= 65535 * |msgs|
  {
    if msgs != [] {
      DataBounded(msgs[..|msgs| - 1]);
    }
  }

  /** The accumulators of gb_i2c_operation_create, in 32-bit arithmetic: they never wrap. */
  method Sizes(msgs: seq<Msg>) returns (dataIn: nat, dataOut: nat)
    requires WellFormed(msgs) && |msgs| < 0x1_0000
    ensures dataIn == |ReadData(msgs)| && dataOut == |WriteData(msgs)|
    ensures dataIn + dataOut < U32
  {
    dataIn, dataOut := 0, 0;
    var i := 0;
    while i < |msgs|
      invariant 0 <= i <= |msgs|
      invariant dataIn == |ReadData(msgs[..i])| && dataOut == |WriteData(msgs[..i])|
    {
      DataStep(msgs, i);
      DataBounded(msgs[..i + 1]);
      if IsRead(msgs[i]) {
        dataIn := (dataIn + |msgs[i].buf|) % U32;
      } else {
        dataOut := (dataOut + |msgs[i].buf|) % U32;
      }
      i := i + 1;
    }
    assert msgs[..i] == msgs;
    DataBounded(msgs);
  }

  // ---------------------------------------------------------------- gather

  /** The loop that fills in the array of operations. */
  method FillOps(b: array<byte>, msgs: seq<Msg>)
    requires WellFormed(msgs) && 2 + OP_SIZE * |msgs| <= b.Length
    modifies b
    ensures b[..2 + OP_SIZE * |msgs|] == old(b[..2]) + OpsBytes(Ops(msgs))
  {
    var ops := Ops(msgs);
    for i := 0 to |msgs|
      invariant b[..2 + OP_SIZE * i] == old(b[..2]) + OpsBytes(ops[..i])
    {
      FillOp(b, 2 + OP_SIZE * i, OpOf(msgs[i]));
      assert ops[..i + 1][..i] == ops[..i];
    }
    assert ops[..|msgs|] == ops;
  }

  /** The loop that copies the outgoing data behind the last operation. */
  method FillData(b: array<byte>, start: nat, msgs: seq<Msg>)
    requires start + |WriteData(msgs)| == b.Length
    modifies b
    ensures b[..] == old(b[..start]) + WriteData(msgs)
  {
    var at := start;
    ghost var head := b[..start];
    for i := 0 to |msgs|
      invariant at == start + |WriteData(msgs[..i])| && at <= b.Length
      invariant b[..at] == head + WriteData(msgs[..i])
    {
      DataStep(msgs, i);
      if !IsRead(msgs[i]) {
        CopyInto(b, at, msgs[i].buf);
        at := at + |msgs[i].buf|;
      }
    }
    assert msgs[..|msgs|] == msgs;
    assert b[..] == b[..at];
  }

  /** gb_i2c_operation_create: the request payload and the payload size of the response, or nothing when there
      are too many messages or a message buffer would be too big for the host device. */
  method OperationCreate(msgs: seq<Msg>, bufferMax: nat) returns (request: array?<byte>, respSize: nat)
    requires WellFormed(msgs)
    ensures request != null ==> fresh(request) && |msgs| < 0x1_0000
    ensures request != null ==> request[..] == Encode(msgs) && respSize == |ReadData(msgs)|
    ensures request == null <==> (|msgs| > 65535 || HEADER + |Encode(msgs)| > bufferMax
                                  || HEADER + |ReadData(msgs)| > bufferMax)
  {
    request, respSize := null, 0;
    if |msgs| > 65535 {
      return;
    }
    var dataIn, dataOut := Sizes(msgs);
    var size := 2 + |msgs| * OP_SIZE + dataOut;
    if HEADER + size > bufferMax || HEADER + dataIn > bufferMax {
      return;
    }
    var b := new byte[size];
    b[0], b[1] := |msgs| % 0x100, |msgs| / 0x100;
    assert b[..2] == Bytes16(|msgs|);
    FillOps(b, msgs);
    FillData(b, 2 + OP_SIZE * |msgs|, msgs);
    request, respSize := b, dataIn;
  }

  /** gb_i2c_fill_transfer_op. */
  method FillOp(b: array<byte>, at: nat, op: Op)
    requires at + OP_SIZE <= b.Length
    modifies b
    ensures b[..at + OP_SIZE] == old(b[..at]) + OpBytes(op)
  {
    var o := OpBytes(op);
    CopyInto(b, at, o);
  }

  /** memcpy. */
  method CopyInto(b: array<byte>, at: nat, src: seq<byte>)
    requires at + |src| <= b.Length
    modifies b
    ensures b[..at + |src|] == old(b[..at]) + src
  {
    for i := 0 to |src|
      invariant b[..at + i] == old(b[..at]) + src[..i]
    {
      b[at + i] := src[i];
      assert b[..at + i + 1] == b[..at + i] + [src[i]];
      assert src[..i + 1] == src[..i] + [src[i]];
    }
    assert src[..|src|] == src;
  }

  // --------------------------------------------------------------- scatter

  /** r is what became of m: only the contents of a read buffer may differ. */
  predicate Filled(m: Msg, r: Msg) {
    && r.addr == m.addr && r.flags == m.flags && |r.buf| == |m.buf|
    && (!IsRead(m) ==> r == m)
  }

  predicate AllFilled(msgs: seq<Msg>, r: seq<Msg>) {
    |r| == |msgs| && forall i :: 0 <= i < |msgs| ==> Filled(msgs[i], r[i])
  }

  lemma SliceSplit(s: seq<byte>, i: nat, j: nat)
    requires i <= j <= |s|
    ensures s[..j] == s[..i] + s[i..j]
  {
  }

  /** The read buffers of r hold the first bytes of the response, in order; all else is as in msgs. */
  predicate Scattered(msgs: seq<Msg>, r: seq<Msg>, got: seq<byte>) {
    AllFilled(msgs, r) && ReadData(r) == got && WriteData(r) == WriteData(msgs) && |got| == |ReadData(msgs)|
  }

  lemma ScatterStep(msgs: seq<Msg>, r: seq<Msg>, got: seq<byte>, m: Msg, slice: seq<byte>)
    requires Scattered(msgs, r, got) && (IsRead(m) ==> |slice| == |m.buf|)
    ensures IsRead(m) ==> Scattered(msgs + [m], r + [m.(buf := slice)], got + slice)
    ensures !IsRead(m) ==> Scattered(msgs + [m], r + [m], got)
  {
  }

  /** The bytes of the response that belong to messages before i: those of the reads, whose flags are odd. */
  function ReadOffset(msgs: seq<Msg>, i: nat): nat
    requires i <= |msgs|
  {
    if i == 0 then 0 else ReadOffset(msgs, i - 1) + if msgs[i - 1].flags % 2 == 1 then |msgs[i - 1].buf| else 0
  }

  lemma {:induction false} ReadOffsetIs(msgs: seq<Msg>, i: nat)
    requires i <= |msgs|
    ensures ReadOffset(msgs, i) == |ReadData(msgs[..i])|
  {
    if i > 0 {
      ReadOffsetIs(msgs, i - 1);
      assert msgs[..i] == msgs[..i - 1] + [msgs[i - 1]];
      DataSnoc(msgs[..i - 1], msgs[i - 1]);
    }
  }

  /** gb_i2c_decode_response: read messages get consecutive slices of the response, write messages keep their
      data, and the read buffers concatenate to exactly the response payload. */
  method DecodeResponse(msgs: seq<Msg>, response: seq<byte>) returns (r: seq<Msg>)
    requires |response| == |ReadData(msgs)|
    ensures AllFilled(msgs, r)
    ensures ReadData(r) == response && WriteData(r) == WriteData(msgs)
    ensures forall i :: 0 <= i < |msgs| ==> Slice(msgs, r[i].buf, response, i)
  {
    r := [];
    var at := 0;
    for i := 0 to |msgs|
      invariant at <= |response| && Scattered(msgs[..i], r, response[..at])
    {
      var m := msgs[i];
      assert msgs[..i + 1] == msgs[..i] + [m];
      if IsRead(m) {
        ReadFits(msgs, i, r, response, at);
        var next := at + |m.buf|;
        ScatterStep(msgs[..i], r, response[..at], m, response[at..next]);
        SliceSplit(response, at, next);
        r := r + [m.(buf := response[at..next])];
        at := next;
      } else {
        ScatterStep(msgs[..i], r, response[..at], m, []);
        r := r + [m];
      }
    }
    assert msgs[..|msgs|] == msgs;
    assert response[..at] == response;
    forall i | 0 <= i < |msgs| ensures Slice(msgs, r[i].buf, response, i) {
      ReadInPlace(msgs, r, i);
    }
  }

  lemma {:induction false} ReadPrefix(msgs: seq<Msg>, i: nat)
    requires i <= |msgs|
    ensures ReadData(msgs[..i]) <= ReadData(msgs)
  {
    if i == |msgs| {
      assert msgs[..i] == msgs;
    } else {
      var rest := msgs[..|msgs| - 1];
      ReadPrefix(rest, i);
      assert rest[..i] == msgs[..i];
    }
  }

  lemma {:induction false} SameOffset(msgs: seq<Msg>, r: seq<Msg>, i: nat)
    requires AllFilled(msgs, r) && i <= |msgs|
    ensures ReadOffset(r, i) == ReadOffset(msgs, i)
  {
    if i > 0 {
      SameOffset(msgs, r, i - 1);
      assert Filled(msgs[i - 1], r[i - 1]);
    }
  }

  /** Each filled buffer is where its offset in the response says. */
  lemma ReadInPlace(msgs: seq<Msg>, r: seq<Msg>, i: nat)
    requires AllFilled(msgs, r) && i < |msgs|
    ensures Slice(msgs, r[i].buf, ReadData(r), i)
  {
    assert Filled(msgs[i], r[i]);
    SameOffset(msgs, r, i);
    ReadOffsetIs(r, i);
    if IsRead(r[i]) {
      assert r[..i + 1] == r[..i] + [r[i]];
      DataSnoc(r[..i], r[i]);
      ReadPrefix(r, i + 1);
      MiddleOf(ReadData(r), ReadData(r[..i]), r[i].buf);
    }
  }

  /** A read gets the bytes at its offset; anything else keeps its own. */
  predicate Slice(msgs: seq<Msg>, buf: seq<byte>, response: seq<byte>, i: nat)
    requires i < |msgs|
  {
    if msgs[i].flags % 2 == 1 then
      var at := ReadOffset(msgs, i);
      at + |msgs[i].buf| <= |response| && buf == response[at..at + |msgs[i].buf|]
    else buf == msgs[i].buf
  }

  /** The next read buffer lies inside the response. */
  lemma ReadFits(msgs: seq<Msg>, i: nat, r: seq<Msg>, response: seq<byte>, at: nat)
    requires i < |msgs| && IsRead(msgs[i]) && at <= |response| == |ReadData(msgs)|
    requires Scattered(msgs[..i], r, response[..at])
    ensures at + |msgs[i].buf| <= |response|
  {
    assert msgs[..i + 1] == msgs[..i] + [msgs[i]];
    DataSnoc(msgs[..i], msgs[i]);
    DataPrefix(msgs, i + 1);
  }
}
