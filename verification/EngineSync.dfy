/** What the caller of a synchronous operation gets. */
module EngineSync {
  import opened Common
  import opened Errno
  import opened Engine
  import opened EngineRuns

  // ------------------------------------------------------------- end to end

  /** data is a successful response to op, of exactly the size op expects. */
  predicate Answers(op: Op, data: seq<byte>) {
    && WellFormedMessage(data) && IsResponse(data)
    && MessageId(data) == op.tag.id
    && data[5] == 0
    && MessageSize(data) == HEADER + op.cfg.respSize
  }

  /**
   gb_operation_sync_timeout end to end, for every race of response, send error, timeout, signal
   and teardown.  Zero means that the caller's buffer is exactly the payload of a received,
   successful and exactly sized response carrying the operation's id; anything else leaves the
   buffer as it was.  After an accepted send the value is the operation's one final result.
   */
  lemma SyncReturns(c: Conn, o: nat)
    requires Reachable(c) && o in c.ops && c.ops[o].log.outcome.Some?
    ensures var op := c.ops[o]; var ret := op.log.outcome.value;
      && (ret == 0 ==> exists data :: data in c.rx && Answers(op, data)
                         && op.user == data[HEADER..MessageSize(data)])
      && (ret != 0 ==> op.user == op.cfg.original)
      && (op.accepted ==> ret == op.errno && Final(ret))
  {
    ReachableInv(c);
    var op := c.ops[o];
    if op.log.outcome == Some(0) {
      var data := op.log.winner.value;
      StatusZero(data[5]);
      assert data in c.rx && Answers(op, data);
    }
  }

  /** Only the success byte maps to zero, and no byte maps to a reserved value. */
  lemma StatusZero(status: byte)
    ensures StatusMap(status) == 0 <==> status == 0
    ensures Final(StatusMap(status))
  {
  }

  /** The two maps, value by value. */
  lemma StatusTable(status: byte, errno: int)
    ensures (StatusMap(status) ==
             if status <= 8 then [0, -4, -110, -12, -93, -90, -22, -11, -19][status]
             else if status == 255 then -84 else -5)
    ensures ErrnoMap(errno) == 254 || errno == 0 || errno in {-4, -110, -12, -93, -90, -22, -11, -19, -84}
    ensures errno == 0 || errno in {-4, -110, -12, -93, -90, -22, -11, -19, -84} ==> StatusMap(ErrnoMap(errno)) == errno
  {
  }

  /** The status byte of a response round-trips, except that unknown bytes all mean -EIO. */
  lemma StatusRoundTrip(status: byte)
    ensures StatusMap(ErrnoMap(StatusMap(status))) == StatusMap(status)
    ensures ErrnoMap(StatusMap(status)) == (if status <= 8 || status == 0xff then status else 0xfe)
  {
  }
}
