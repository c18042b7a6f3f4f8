/** Feeding a PCM ring buffer to the codec, one chunk per timer tick. */
module Pcm {
  import opened Arithmetic

  const SAMPLES_PER_MSG := 48
  const MAX_SEND_DATA_LEN := 192

  /** The part of the PCM runtime that stays fixed while playing, with stride the bytes of a frame. */
  datatype Runtime = Runtime(bufferSize: nat, periodSize: nat, stride: nat) {
    predicate Valid() {
      bufferSize >= 1 && stride >= 1
    }

    function RingBytes(): nat {
      bufferSize * stride
    }
  }

  /** The fields of struct gb_snd that the work function updates. */
  datatype State = State(hwptr: nat, transferDone: nat, sampleCount: nat, active: bool)

  /** What a tick does besides changing the state: the bytes of the ring it sends, the number of their first sample,
      and whether a period is over. */
  datatype Effect = Effect(address: nat, len: nat, sample: nat, period: bool)

  function ChunkLen(rt: Runtime, hwptr: nat): (len: nat)
    requires hwptr <= rt.RingBytes()
  {
    if rt.RingBytes() - hwptr < MAX_SEND_DATA_LEN then rt.RingBytes() - hwptr else MAX_SEND_DATA_LEN
  }

  function Frames(rt: Runtime, hwptr: nat, len: nat): nat
    requires rt.Valid()
  {
    (len + hwptr % rt.stride) / rt.stride
  }

  function Work(rt: Runtime, s: State, running: bool): (State, Effect)
    requires rt.Valid() && s.hwptr < rt.RingBytes()
  {
    if !running then
      (if s.active then s.(active := false, sampleCount := 0) else s, Effect(0, 0, 0, false))
    else
      var len := ChunkLen(rt, s.hwptr);
      var moved := s.hwptr + len;
      var done := s.transferDone + Frames(rt, s.hwptr, len);
      var period := done >= rt.periodSize;
      (State(if moved >= rt.RingBytes() then moved - rt.RingBytes() else moved,
             if period then done - rt.periodSize else done,
             s.sampleCount + SAMPLES_PER_MSG,
             true),
       Effect(s.hwptr, len, s.sampleCount, period))
  }

  /** gb_pcm_work and gb_pcm_prepare on the fields they update. */
  class Player {
    const rt: Runtime
    var hwptr: nat
    var transferDone: nat
    var sampleCount: nat
    var active: bool

    constructor (rt: Runtime)
      requires rt.Valid()
      ensures this.rt == rt && Valid() && Now() == Run(rt, []).state
    {
      RingPositive(rt);
      this.rt := rt;
      hwptr, transferDone, sampleCount, active := 0, 0, 0, false;
    }

    predicate Valid()
      reads this
    {
      rt.Valid() && hwptr < rt.RingBytes()
    }

    function Now(): State
      reads this
    {
      State(hwptr, transferDone, sampleCount, active)
    }

    /** gb_pcm_prepare. */
    method Prepare()
      requires rt.Valid()
      modifies this
      ensures Valid() && Now() == old(Now()).(hwptr := 0, transferDone := 0)
    {
      RingPositive(rt);
      hwptr := 0;
      transferDone := 0;
    }

    /** gb_pcm_work; the ring position and length are what gb_i2s_send_data gets. */
    method Tick(running: bool) returns (effect: Effect)
      requires Valid()
      modifies this
      ensures Valid() && (Now(), effect) == Work(rt, old(Now()), running)
    {
      effect := Effect(0, 0, 0, false);
      if !running {
        if active {
          active := false;
          sampleCount := 0;
        }
        return;
      } else if !active {
        active := true;
      }
      var len := rt.RingBytes() - hwptr;
      if len > MAX_SEND_DATA_LEN {
        len := MAX_SEND_DATA_LEN;
      }
      effect := effect.(address := hwptr, len := len, sample := sampleCount);
      sampleCount := sampleCount + SAMPLES_PER_MSG;
      var oldptr := hwptr;
      hwptr := hwptr + len;
      if hwptr >= rt.RingBytes() {
        hwptr := hwptr - rt.RingBytes();
      }
      transferDone := transferDone + Frames(rt, oldptr, len);
      if transferDone >= rt.periodSize {
        transferDone := transferDone - rt.periodSize;
        effect := effect.(period := true);
      }
    }
  }

  lemma RingPositive(rt: Runtime)
    requires rt.Valid()
    ensures rt.RingBytes() > 0
  {
  }

  // -------------------------------------------------------------------- runs

  datatype Event = Tick(running: bool) | Prepare

  /** A run with what it did since the last prepare: the ring positions of all bytes sent, in order, and the
      number of periods subtracted from transfer_done. */
  datatype Ledger = Ledger(state: State, sent: seq<nat>, periods: nat)

  ghost predicate Sound(rt: Runtime, l: Ledger)
    requires rt.Valid() && rt.RingBytes() > 0
  {
    && l.state.hwptr < rt.RingBytes()
    && l.state.hwptr == |l.sent| % rt.RingBytes()
    && (forall b :: 0 <= b < |l.sent| ==> l.sent[b] == b % rt.RingBytes())
    && l.state.transferDone + rt.periodSize * l.periods == |l.sent| / rt.stride
  }

  function Positions(e: Effect): seq<nat> {
    seq(e.len, k requires 0 <= k => e.address + k)
  }

  function Next(rt: Runtime, l: Ledger, event: Event): Ledger
    requires rt.Valid() && l.state.hwptr < rt.RingBytes()
  {
    match event
    case Prepare => Ledger(l.state.(hwptr := 0, transferDone := 0), [], 0)
    case Tick(running) =>
      var (state, effect) := Work(rt, l.state, running);
      Ledger(state, l.sent + Positions(effect), l.periods + if effect.period then 1 else 0)
  }

  function Run(rt: Runtime, events: seq<Event>): (l: Ledger)
    requires rt.Valid()
    ensures rt.RingBytes() > 0 && l.state.hwptr < rt.RingBytes()
  {
    RingPositive(rt);
    if events == [] then Ledger(State(0, 0, 0, false), [], 0)
    else Next(rt, Run(rt, events[..|events| - 1]), events[|events| - 1])
  }

  /** Over any run, the read position stays inside the ring, the chunks together read the ring round and round
      without a gap or an overlap, and transfer_done with the periods subtracted is the whole number of frames sent. */
  lemma {:induction false} RunIsSound(rt: Runtime, events: seq<Event>)
    requires rt.Valid() && rt.RingBytes() > 0
    ensures Sound(rt, Run(rt, events))
  {
    if events == [] {
      DivUnique(0, 0, 0, rt.RingBytes());
      DivUnique(0, 0, 0, rt.stride);
    } else {
      var before := Run(rt, events[..|events| - 1]);
      RunIsSound(rt, events[..|events| - 1]);
      NextIsSound(rt, before, events[|events| - 1]);
    }
  }

  lemma NextIsSound(rt: Runtime, l: Ledger, event: Event)
    requires rt.Valid() && rt.RingBytes() > 0 && Sound(rt, l)
    ensures Sound(rt, Next(rt, l, event))
  {
    match event
    case Prepare =>
      DivUnique(0, 0, 0, rt.RingBytes());
      DivUnique(0, 0, 0, rt.stride);
    case Tick(running) =>
      if running {
        TickIsSound(rt, l);
      } else {
        assert Next(rt, l, event).sent == l.sent;
      }
  }

  lemma TickIsSound(rt: Runtime, l: Ledger)
    requires rt.Valid() && rt.RingBytes() > 0 && Sound(rt, l)
    ensures Sound(rt, Next(rt, l, Tick(true)))
  {
    var next := Next(rt, l, Tick(true));
    var n, ring, hwptr := |l.sent|, rt.RingBytes(), l.state.hwptr;
    var len := ChunkLen(rt, hwptr);
    RingMoves(n, ring, len);
    forall b | 0 <= b < |next.sent|
      ensures next.sent[b] == b % ring
    {
      if b >= n {
        RingRead(n, ring, b - n, len);
      }
    }
    SamePhase(n, rt);
    FloorSplits(n, len, rt.stride);
    PeriodStep(rt.periodSize, l.periods);
  }

  lemma PeriodStep(size: nat, periods: nat)
    ensures size * (periods + 1) == size * periods + size
  {
  }

  /** The read position after a chunk that does not run past the end of the ring. */
  lemma RingMoves(n: nat, ring: nat, len: nat)
    requires ring > 0 && n % ring + len <= ring
    ensures (n + len) % ring == if n % ring + len >= ring then n % ring + len - ring else n % ring + len
  {
    assert n == n / ring * ring + n % ring;
    AddMultiple(n / ring, n % ring + len, ring);
    if n % ring + len == ring {
      DivUnique(ring, 1, 0, ring);
    } else {
      DivUnique(n % ring + len, 0, n % ring + len, ring);
    }
  }

  lemma RingRead(n: nat, ring: nat, k: nat, len: nat)
    requires ring > 0 && k < len && n % ring + len <= ring
    ensures (n + k) % ring == n % ring + k
  {
    RingMoves(n, ring, k);
  }

  /** The position within a frame is the same in the ring and in the whole stream. */
  lemma SamePhase(n: nat, rt: Runtime)
    requires rt.Valid() && rt.RingBytes() > 0
    ensures (n % rt.RingBytes()) % rt.stride == n % rt.stride
  {
    var ring := rt.RingBytes();
    var laps := n / ring;
    assert n == laps * ring + n % ring;
    Regroup(laps, rt.bufferSize, rt.stride);
    AddMultiple(laps * rt.bufferSize, n % ring, rt.stride);
  }

  lemma Regroup(a: nat, b: nat, c: nat)
    ensures a * (b * c) == a * b * c
  {
  }

  // --------------------------------------------------------- sample numbers

  /** Running ticks since the last tick that found the player stopped; a prepare does not count. */
  function Since(events: seq<Event>): nat {
    if events == [] then 0
    else
      match events[|events| - 1]
      case Prepare => Since(events[..|events| - 1])
      case Tick(running) => if running then Since(events[..|events| - 1]) + 1 else 0
  }

  /** Over any run, the CPort is active exactly when a running tick has come since the last stop, and the messages of
      those ticks are numbered 0, 48, 96 and so on. */
  lemma {:induction false} SamplesNumbered(rt: Runtime, events: seq<Event>)
    requires rt.Valid() && rt.RingBytes() > 0
    ensures var s := Run(rt, events).state;
      && s.sampleCount == 48 * Since(events) && (s.active <==> Since(events) > 0)
      && Work(rt, s, true).1.sample == 48 * Since(events)
  {
    if events != [] {
      SamplesNumbered(rt, events[..|events| - 1]);
    }
  }

  // ------------------------------------------------------------- period lag

  /** Running ticks since the last prepare. */
  function Ticks(events: seq<Event>): nat {
    if events == [] then 0
    else
      match events[|events| - 1]
      case Prepare => 0
      case Tick(running) => Ticks(events[..|events| - 1]) + if running then 1 else 0
  }

  /** Chunks in one lap of the ring; the last may be short. */
  function Chunks(rt: Runtime): (n: nat)
    requires rt.Valid()
    ensures n >= 1 && (n - 1) * MAX_SEND_DATA_LEN < rt.RingBytes() <= n * MAX_SEND_DATA_LEN
  {
    RingPositive(rt);
    (rt.RingBytes() - 1) / MAX_SEND_DATA_LEN + 1
  }

  /** Bytes sent after k ticks: whole laps, and whole chunks of the current one. */
  function Bytes(rt: Runtime, k: nat): nat
    requires rt.Valid()
  {
    k / Chunks(rt) * rt.RingBytes() + k % Chunks(rt) * MAX_SEND_DATA_LEN
  }

  lemma BytesStep(rt: Runtime, k: nat)
    requires rt.Valid() && rt.RingBytes() > 0
    ensures Bytes(rt, k) % rt.RingBytes() <= rt.RingBytes()
    ensures Bytes(rt, k + 1) == Bytes(rt, k) + ChunkLen(rt, Bytes(rt, k) % rt.RingBytes())
  {
    var n, ring := Chunks(rt), rt.RingBytes();
    var lap, j := k / n, k % n;
    assert k == lap * n + j;
    DivUnique(Bytes(rt, k), lap, j * MAX_SEND_DATA_LEN, ring);
    if j + 1 < n {
      DivUnique(k + 1, lap, j + 1, n);
    } else {
      assert (lap + 1) * n == lap * n + n;
      DivUnique(k + 1, lap + 1, 0, n);
      assert (lap + 1) * ring == lap * ring + ring;
    }
  }

  /** The number of bytes that a run has sent depends on its ticks alone. */
  lemma {:induction false} RunBytes(rt: Runtime, events: seq<Event>)
    requires rt.Valid() && rt.RingBytes() > 0
    ensures |Run(rt, events).sent| == Bytes(rt, Ticks(events))
  {
    DivUnique(0, 0, 0, Chunks(rt));
    if events != [] {
      var before := events[..|events| - 1];
      RunBytes(rt, before);
      RunIsSound(rt, before);
      BytesStep(rt, Ticks(before));
    }
  }

  /** Periods that are complete after k ticks. */
  function Due(rt: Runtime, k: nat): nat
    requires rt.Valid() && rt.periodSize >= 1
  {
    Periods(Bytes(rt, k), rt.stride, rt.periodSize)
  }

  /** Whole periods in this many bytes. */
  function Periods(bytes: nat, stride: nat, periodSize: nat): nat
    requires stride >= 1 && periodSize >= 1
  {
    var frames: nat := bytes / stride;
    frames / periodSize
  }

  /** In every run less than a period is left over after every event. */
  ghost predicate KeepsUp(rt: Runtime)
    requires rt.Valid()
  {
    forall events :: Run(rt, events).state.transferDone < rt.periodSize
  }

  /** No tick among the first laps completes two periods; after as many laps as a period has frames, the pattern
      repeats. */
  predicate OnePerTick(rt: Runtime)
    requires rt.Valid() && rt.periodSize >= 1
  {
    forall k {:trigger Due(rt, k)} :: 0 <= k < Chunks(rt) * rt.periodSize ==> Due(rt, k + 1) <= Due(rt, k) + 1
  }

  lemma Commute(a: nat, b: nat)
    ensures a * b == b * a
  {
  }

  lemma Distribute(a: nat, b: nat, c: nat)
    ensures (a + b) * c == a * c + b * c
  {
  }

  lemma BytesRepeat(rt: Runtime, k: nat, p: nat)
    requires rt.Valid()
    ensures Bytes(rt, p * Chunks(rt) + k) == p * rt.RingBytes() + Bytes(rt, k)
  {
    AddMultiple(p, k, Chunks(rt));
    Distribute(p, k / Chunks(rt), rt.RingBytes());
  }

  lemma DueRepeats(rt: Runtime, k: nat)
    requires rt.Valid() && rt.periodSize >= 1
    ensures Due(rt, k + Chunks(rt) * rt.periodSize) == Due(rt, k) + rt.bufferSize
  {
    RepeatedBytes(rt, k);
    LapsDivide(rt.bufferSize, rt.periodSize, rt.stride, Bytes(rt, k));
  }

  lemma RepeatedBytes(rt: Runtime, k: nat)
    requires rt.Valid()
    ensures (Bytes(rt, k + Chunks(rt) * rt.periodSize)
             == rt.bufferSize * rt.periodSize * rt.stride + Bytes(rt, k))
  {
    Commute(Chunks(rt), rt.periodSize);
    BytesRepeat(rt, k, rt.periodSize);
    Regroup(rt.periodSize, rt.bufferSize, rt.stride);
    Commute(rt.periodSize, rt.bufferSize);
  }

  lemma LapsDivide(b: nat, p: nat, s: nat, sent: nat)
    requires p >= 1 && s >= 1
    ensures Periods(b * p * s + sent, s, p) == Periods(sent, s, p) + b
  {
    AddMultiple(b * p, sent, s);
    AddMultiple(b, sent / s, p);
  }

  lemma {:induction false} OnePerTickAlways(rt: Runtime, k: nat)
    requires rt.Valid() && rt.periodSize >= 1 && OnePerTick(rt)
    ensures Due(rt, k + 1) <= Due(rt, k) + 1
    decreases k
  {
    var m := Chunks(rt) * rt.periodSize;
    MulAtLeast(Chunks(rt), rt.periodSize);
    if k >= m {
      OnePerTickAlways(rt, k - m);
      DueRepeats(rt, k - m);
      DueRepeats(rt, k - m + 1);
    }
  }

  /** With less than a period left over, exactly the complete periods have been subtracted. */
  lemma SubtractedIsDue(rt: Runtime, events: seq<Event>)
    requires rt.Valid() && rt.periodSize >= 1 && Run(rt, events).state.transferDone < rt.periodSize
    ensures Run(rt, events).periods == Due(rt, Ticks(events))
  {
    var l := Run(rt, events);
    RunIsSound(rt, events);
    RunBytes(rt, events);
    PeriodsAre(|l.sent|, rt.stride, rt.periodSize, l.periods, l.state.transferDone);
  }

  lemma PeriodsAre(bytes: nat, stride: nat, periodSize: nat, periods: nat, done: nat)
    requires stride >= 1 && periodSize >= 1 && done < periodSize
    requires done + periodSize * periods == bytes / stride
    ensures Periods(bytes, stride, periodSize) == periods
  {
    Commute(periodSize, periods);
    DivUnique(bytes / stride, periods, done, periodSize);
  }

  lemma {:induction false} StaysBelow(rt: Runtime, events: seq<Event>)
    requires rt.Valid() && rt.periodSize >= 1 && OnePerTick(rt)
    ensures Run(rt, events).state.transferDone < rt.periodSize
  {
    if events != [] {
      var before, last := events[..|events| - 1], events[|events| - 1];
      StaysBelow(rt, before);
      if last == Tick(true) {
        SubtractedIsDue(rt, before);
        OnePerTickAlways(rt, Ticks(before));
        TickBelow(rt, before, events);
      }
    }
  }

  lemma TickBelow(rt: Runtime, before: seq<Event>, events: seq<Event>)
    requires rt.Valid() && rt.periodSize >= 1 && events == before + [Tick(true)]
    requires Run(rt, before).state.transferDone < rt.periodSize
    requires Due(rt, Ticks(before) + 1) <= Run(rt, before).periods + 1
    ensures Run(rt, events).state.transferDone < rt.periodSize
  {
    assert events[..|events| - 1] == before;
    RunIsSound(rt, events);
    RunBytes(rt, events);
    var l := Run(rt, events);
    if l.state.transferDone >= rt.periodSize {
      assert l.periods == Run(rt, before).periods + 1;
      BelowPeriod(|l.sent|, rt.stride, l.periods, l.state.transferDone, rt.periodSize);
    }
  }

  lemma BelowPeriod(bytes: nat, s: nat, periods: nat, done: nat, p: nat)
    requires s >= 1 && p >= 1 && done + p * periods == bytes / s && Periods(bytes, s, p) <= periods
    ensures done < p
  {
    Commute(p, periods);
    AddMultiple(periods, done, p);
    if done >= p { DivMonotone(p, done, p); }
  }

  function TickRun(k: nat): (events: seq<Event>)
    ensures |events| == k && Ticks(events) == k
  {
    if k == 0 then []
    else
      var before := TickRun(k - 1);
      assert (before + [Tick(true)])[..k - 1] == before;
      before + [Tick(true)]
  }

  /** A tick subtracts at most one period. */
  lemma OneSubtraction(rt: Runtime, k: nat)
    requires rt.Valid()
    ensures Run(rt, TickRun(k + 1)).periods <= Run(rt, TickRun(k)).periods + 1
  {
    NextSubtracts(rt, Run(rt, TickRun(k)));
    assert TickRun(k + 1)[..k] == TickRun(k);
  }

  lemma NextSubtracts(rt: Runtime, l: Ledger)
    requires rt.Valid() && l.state.hwptr < rt.RingBytes()
    ensures Next(rt, l, Tick(true)).periods <= l.periods + 1
  {
  }

  /** The number of frames since the last period stays below a period in every run exactly when no tick completes two
      periods, which the sizes decide. */
  lemma KeepsUpIffOnePerTick(rt: Runtime)
    requires rt.Valid() && rt.periodSize >= 1
    ensures KeepsUp(rt) <==> OnePerTick(rt)
  {
    if OnePerTick(rt) {
      forall events ensures Run(rt, events).state.transferDone < rt.periodSize {
        StaysBelow(rt, events);
      }
    }
    if KeepsUp(rt) {
      forall k: nat | k < Chunks(rt) * rt.periodSize ensures Due(rt, k + 1) <= Due(rt, k) + 1 {
        SubtractedIsDue(rt, TickRun(k));
        SubtractedIsDue(rt, TickRun(k + 1));
        OneSubtraction(rt, k);
      }
    }
  }

  /** A period that holds a whole chunk is enough. */
  lemma ChunkInPeriodKeepsUp(rt: Runtime)
    requires rt.Valid() && rt.periodSize * rt.stride >= MAX_SEND_DATA_LEN
    ensures KeepsUp(rt)
  {
    RingPositive(rt);
    forall k: nat | k < Chunks(rt) * rt.periodSize ensures Due(rt, k + 1) <= Due(rt, k) + 1 {
      BytesStep(rt, k);
      ShortStep(Bytes(rt, k), Bytes(rt, k + 1), rt.stride, rt.periodSize);
    }
    KeepsUpIffOnePerTick(rt);
  }

  lemma ShortStep(a: nat, b: nat, s: nat, p: nat)
    requires s >= 1 && p >= 1 && a <= b <= a + p * s
    ensures Periods(b, s, p) <= Periods(a, s, p) + 1
  {
    QuotientGrows(a, b, s, p);
    QuotientGrows(a / s, b / s, p, 1);
  }

  lemma QuotientGrows(a: nat, b: nat, d: nat, m: nat)
    requires d >= 1 && b <= m * d + a
    ensures b / d <= a / d + m
  {
    AddMultiple(m, a, d);
    DivMonotone(b, m * d + a, d);
  }

  lemma DivMonotone(a: nat, b: nat, d: nat)
    requires a <= b && d >= 1
    ensures a / d <= b / d
  {
    var p, q := a / d, b / d;
    assert a == p * d + a % d && b == q * d + b % d;
    if q < p { MulGrows(q, p, d); }
  }

  /** A period shorter than half the first chunk is not: the first tick already leaves a period over. */
  lemma TwoPeriodsInFirstChunk(rt: Runtime)
    requires rt.Valid() && rt.periodSize >= 1 && rt.RingBytes() >= MAX_SEND_DATA_LEN
    requires 2 * rt.periodSize * rt.stride <= MAX_SEND_DATA_LEN
    ensures Run(rt, [Tick(true)]).state.transferDone >= rt.periodSize
  {
    var events := [Tick(true)];
    assert events[..0] == [];
    DivUnique(0, 0, 0, rt.stride);
    var p := 2 * rt.periodSize;
    DivMonotone(p * rt.stride, MAX_SEND_DATA_LEN, rt.stride);
    AddMultiple(p, 0, rt.stride);
  }
}
