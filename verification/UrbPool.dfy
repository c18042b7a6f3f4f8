/** The pool of outgoing USB request blocks of the ES2 host driver, under concurrent cancellation. */
module UrbPool {
  import opened Common

  /** message_send and cport_out_callback on one message; u is the request block it uses. */
  datatype Phase =
    | NotSent
    | Acquired(u: nat)        // next_free_urb has returned u
    | Filled(u: nat)          // hcpriv set
    | Submitted(u: nat)       // inside the USB stack
    | Failed(u: nat)          // usb_submit_urb refused it
    | Reporting(u: nat)       // completion callback has reported the message as sent
    | Releasing(u: nat)       // hcpriv cleared, free_urb to come
    | Sent

  /** message_cancel on one message. */
  datatype Cancel =
    | NoCancel
    | Marked(urb: Option<nat>)    // has read hcpriv and marked the block
    | Killed(urb: Option<nat>)    // usb_kill_urb has returned
    | Cancelled

  datatype Message = Message(phase: Phase, hcpriv: Option<nat>, cancel: Cancel)

  /** Blocks below size are the pool; larger numbers are allocated when the pool is exhausted. */
  datatype Pool = Pool(
    size: nat,
    busy: seq<bool>,              // cport_out_urb_busy
    cancelled: seq<bool>,         // cport_out_urb_cancelled
    messages: map<nat, Message>,
    nextUrb: nat,                   // next block to be allocated dynamically
    holder: map<nat, nat>,        // history: which message holds a block
    marker: map<nat, nat>)        // history: whose canceller has marked a block

  // -------------------------------------------------------------- sections

  /** The search of next_free_urb: the first block neither busy nor being cancelled, or the length. */
  function FirstFree(busy: seq<bool>, cancelled: seq<bool>): (i: nat)
    requires |busy| == |cancelled|
    ensures i <= |busy|
    ensures i < |busy| ==> !busy[i] && !cancelled[i]
    ensures forall j :: 0 <= j < i ==> busy[j] || cancelled[j]
  {
    if busy == [] then 0
    else if !busy[0] && !cancelled[0] then 0
    else 1 + FirstFree(busy[1..], cancelled[1..])
  }

  /** next_free_urb on the driver's arrays; a result equal to the length asks for a fresh block. */
  method NextFreeUrb(busy: array<bool>, cancelled: array<bool>) returns (i: nat)
    requires busy.Length == cancelled.Length && busy != cancelled
    modifies busy
    ensures i == FirstFree(old(busy[..]), old(cancelled[..]))
    ensures busy[..] == if i < busy.Length then old(busy[..])[i := true] else old(busy[..])
  {
    i := 0;
    while i < busy.Length && (busy[i] || cancelled[i])
      invariant i <= busy.Length
      invariant busy[..] == old(busy[..])
      invariant forall j :: 0 <= j < i ==> busy[j] || cancelled[j]
    {
      i := i + 1;
    }
    FirstFreeUnique(busy[..], cancelled[..], i);
    if i < busy.Length {
      busy[i] := true;
    }
  }

  lemma FirstFreeUnique(busy: seq<bool>, cancelled: seq<bool>, i: nat)
    requires |busy| == |cancelled| && i <= |busy|
    requires i < |busy| ==> !busy[i] && !cancelled[i]
    requires forall j :: 0 <= j < i ==> busy[j] || cancelled[j]
    ensures i == FirstFree(busy, cancelled)
  {
  }

  // ----------------------------------------------------------------- events

  datatype Event =
    | New(m: nat)
    | Acquire(m: nat)
    | SetPriv(m: nat)
    | Submit(m: nat, ok: bool)
    | Complete(m: nat)
    | ClearPriv(m: nat)       // on the failure path and in the callback
    | Free(m: nat)
    | Mark(m: nat)
    | Kill(m: nat)
    | Unmark(m: nat)

  /** The block that a message holds. */
  function Held(p: Phase): Option<nat> {
    match p
    case NotSent => None
    case Sent => None
    case Acquired(u) => Some(u)
    case Filled(u) => Some(u)
    case Submitted(u) => Some(u)
    case Failed(u) => Some(u)
    case Reporting(u) => Some(u)
    case Releasing(u) => Some(u)
  }

  /** The block that a canceller keeps from being reused. */
  function Kept(c: Cancel): Option<nat> {
    if c.Marked? || c.Killed? then c.urb else None
  }

  /** The USB stack or the completion callback is still working on the block for this message. */
  predicate InFlight(p: Phase) {
    p.Submitted? || p.Reporting? || p.Releasing?
  }

  function With(p: Pool, m: nat, msg: Message): Pool {
    p.(messages := p.messages[m := msg])
  }

  function Apply(p: Pool, e: Event): Option<Pool> {
    if |p.busy| != p.size || |p.cancelled| != p.size then None
    else if e.New? then
      if e.m in p.messages then None else Some(With(p, e.m, Message(NotSent, None, NoCancel)))
    else if e.m !in p.messages then None
    else
      var m, msg := e.m, p.messages[e.m];
      match e
      case Acquire(_) =>
        if !msg.phase.NotSent? then None else
        var i := FirstFree(p.busy, p.cancelled);
        if i < p.size then
          Some(With(p, m, msg.(phase := Acquired(i))).(busy := p.busy[i := true], holder := p.holder[i := m]))
        else
          Some(With(p, m, msg.(phase := Acquired(p.nextUrb))).(
                 nextUrb := p.nextUrb + 1, holder := p.holder[p.nextUrb := m]))
      case SetPriv(_) =>
        if msg.phase.Acquired?
        then Some(With(p, m, msg.(phase := Filled(msg.phase.u), hcpriv := Some(msg.phase.u)))) else None
      case Submit(_, ok) =>
        if msg.phase.Filled?
        then Some(With(p, m, msg.(phase := if ok then Submitted(msg.phase.u) else Failed(msg.phase.u)))) else None
      case Complete(_) =>
        if msg.phase.Submitted? then Some(With(p, m, msg.(phase := Reporting(msg.phase.u)))) else None
      case ClearPriv(_) =>
        if msg.phase.Failed? || msg.phase.Reporting?
        then Some(With(p, m, msg.(phase := Releasing(msg.phase.u), hcpriv := None))) else None
      case Free(_) =>
        if msg.phase.Releasing? then
          var u := msg.phase.u;
          Some(With(p, m, msg.(phase := Sent)).(
                 busy := if u < p.size then p.busy[u := false] else p.busy, holder := p.holder - {u}))
        else None
      case Mark(_) =>
        if !msg.cancel.NoCancel? then None else
        var p' := With(p, m, msg.(cancel := Marked(msg.hcpriv)));
        if msg.hcpriv.None? then Some(p') else
        var u := msg.hcpriv.value;
        Some(p'.(cancelled := if u < p.size then p.cancelled[u := true] else p.cancelled,
                 marker := p.marker[u := m]))
      case Kill(_) =>
        if msg.cancel.Marked? && !(exists n :: n in p.messages && InFlight(p.messages[n].phase)
                                     && Held(p.messages[n].phase) == msg.cancel.urb)
        then Some(With(p, m, msg.(cancel := Killed(msg.cancel.urb)))) else None
      case Unmark(_) =>
        if !msg.cancel.Killed? then None else
        var p' := With(p, m, msg.(cancel := Cancelled));
        if msg.cancel.urb.None? then Some(p') else
        var u := msg.cancel.urb.value;
        Some(p'.(cancelled := if u < p.size then p.cancelled[u := false] else p.cancelled,
                 marker := p.marker - {u}))
      case New(_) => None
  }

  function Exec(p: Pool, es: seq<Event>): Option<Pool>
    decreases |es|
  {
    if es == [] then Some(p)
    else match Apply(p, es[0]) case None => None case Some(p') => Exec(p', es[1..])
  }

  function Start(size: nat): Pool {
    Pool(size, seq(size, _ => false), seq(size, _ => false), map[], size, map[], map[])
  }

  // -------------------------------------------------------------- invariant

  ghost predicate MessageOk(p: Pool, m: nat)
    requires m in p.messages
  {
    var msg := p.messages[m];
    && (Held(msg.phase).Some? ==> Held(msg.phase).value in p.holder && p.holder[Held(msg.phase).value] == m)
    && (Kept(msg.cancel).Some? ==> Kept(msg.cancel).value in p.marker && p.marker[Kept(msg.cancel).value] == m)
    && PrivOk(msg)
  }

  ghost predicate HolderOk(p: Pool, u: nat)
    requires u in p.holder
  {
    u < p.nextUrb && p.holder[u] in p.messages && Held(p.messages[p.holder[u]].phase) == Some(u)
  }

  ghost predicate MarkerOk(p: Pool, u: nat)
    requires u in p.marker
  {
    u < p.nextUrb && p.marker[u] in p.messages && Kept(p.messages[p.marker[u]].cancel) == Some(u)
  }

  ghost predicate FlagsOk(p: Pool) {
    && |p.busy| == p.size && |p.cancelled| == p.size && p.size <= p.nextUrb
    && (forall u :: 0 <= u < p.size ==> (p.busy[u] <==> u in p.holder))
    && (forall u :: 0 <= u < p.size ==> (p.cancelled[u] <==> u in p.marker))
  }

  ghost predicate Inv(p: Pool) {
    && FlagsOk(p)
    && (forall m :: m in p.messages ==> MessageOk(p, m))
    && (forall u :: u in p.holder ==> HolderOk(p, u))
    && (forall u :: u in p.marker ==> MarkerOk(p, u))
    && (forall u :: u in p.marker && u in p.holder ==> p.marker[u] == p.holder[u])
  }

  predicate PrivOk(msg: Message) {
    && (msg.hcpriv.Some? ==> msg.hcpriv == Held(msg.phase))
    && (msg.phase.Acquired? || msg.phase.Releasing? ==> msg.hcpriv.None?)
    && (msg.phase.Filled? || msg.phase.Submitted? || msg.phase.Failed? || msg.phase.Reporting? ==> msg.hcpriv.Some?)
  }

  /** A step that neither takes nor gives back nor marks a block. */
  lemma SwapKeeps(p: Pool, p': Pool, m: nat, msg: Message)
    requires Inv(p) && p' == p.(messages := p.messages[m := msg]) && PrivOk(msg)
    requires if m in p.messages
      then Held(msg.phase) == Held(p.messages[m].phase) && Kept(msg.cancel) == Kept(p.messages[m].cancel)
      else Held(msg.phase).None? && Kept(msg.cancel).None?
    ensures Inv(p')
  {
    forall n | n in p'.messages ensures MessageOk(p', n) {
      assert n != m ==> MessageOk(p, n);
      assert m in p.messages ==> MessageOk(p, m);
    }
    forall u | u in p'.holder ensures HolderOk(p', u) {
      assert HolderOk(p, u);
    }
    forall u | u in p'.marker ensures MarkerOk(p', u) {
      assert MarkerOk(p, u);
    }
  }

  /** A free block, or a fresh one, goes to one message. */
  lemma TakeKeeps(p: Pool, p': Pool, m: nat, u: nat)
    requires Inv(p) && m in p.messages && Held(p.messages[m].phase).None? && u !in p.holder && u !in p.marker
    requires p'.messages == p.messages[m := p.messages[m].(phase := Acquired(u))]
    requires p'.holder == p.holder[u := m] && p'.marker == p.marker && p'.size == p.size && p'.cancelled == p.cancelled
    requires u < p'.nextUrb && p.nextUrb <= p'.nextUrb
    requires p'.busy == if u < p.size then p.busy[u := true] else p.busy
    ensures Inv(p')
  {
    forall n | n in p'.messages ensures MessageOk(p', n) {
      assert MessageOk(p, n);
    }
    forall v | v in p'.holder ensures HolderOk(p', v) {
      assert v != u ==> HolderOk(p, v);
    }
    forall v | v in p'.marker ensures MarkerOk(p', v) {
      assert MarkerOk(p, v);
    }
  }

  lemma GiveKeeps(p: Pool, p': Pool, m: nat, u: nat)
    requires Inv(p) && m in p.messages && Held(p.messages[m].phase) == Some(u) && p.messages[m].hcpriv.None?
    requires p'.messages == p.messages[m := p.messages[m].(phase := Sent)]
    requires p'.holder == p.holder - {u} && p'.marker == p.marker && p'.size == p.size && p'.cancelled == p.cancelled
    requires p'.nextUrb == p.nextUrb
    requires p'.busy == if u < p.size then p.busy[u := false] else p.busy
    ensures Inv(p')
  {
    assert MessageOk(p, m);
    forall n | n in p'.messages ensures MessageOk(p', n) {
      assert MessageOk(p, n);
    }
    forall v | v in p'.holder ensures HolderOk(p', v) {
      assert HolderOk(p, v);
    }
    forall v | v in p'.marker ensures MarkerOk(p', v) {
      assert MarkerOk(p, v);
    }
  }

  /** A canceller marks the block that its message holds. */
  lemma MarkKeeps(p: Pool, p': Pool, m: nat, u: nat)
    requires Inv(p) && m in p.messages && p.messages[m].hcpriv == Some(u) && p.messages[m].cancel.NoCancel?
    requires p'.messages == p.messages[m := p.messages[m].(cancel := Marked(Some(u)))]
    requires p'.marker == p.marker[u := m] && p'.holder == p.holder && p'.size == p.size && p'.busy == p.busy
    requires p'.nextUrb == p.nextUrb
    requires p'.cancelled == if u < p.size then p.cancelled[u := true] else p.cancelled
    ensures Inv(p')
  {
    assert MessageOk(p, m) && HolderOk(p, u);
    assert u in p.marker ==> MarkerOk(p, u);
    forall n | n in p'.messages ensures MessageOk(p', n) {
      assert MessageOk(p, n);
    }
    forall v | v in p'.holder ensures HolderOk(p', v) {
      assert HolderOk(p, v);
    }
    forall v | v in p'.marker ensures MarkerOk(p', v) {
      assert v != u ==> MarkerOk(p, v);
    }
  }

  lemma UnmarkKeeps(p: Pool, p': Pool, m: nat, u: nat)
    requires Inv(p) && m in p.messages && Kept(p.messages[m].cancel) == Some(u)
    requires p'.messages == p.messages[m := p.messages[m].(cancel := Cancelled)]
    requires p'.marker == p.marker - {u} && p'.holder == p.holder && p'.size == p.size && p'.busy == p.busy
    requires p'.nextUrb == p.nextUrb
    requires p'.cancelled == if u < p.size then p.cancelled[u := false] else p.cancelled
    ensures Inv(p')
  {
    assert MessageOk(p, m);
    forall n | n in p'.messages ensures MessageOk(p', n) {
      assert MessageOk(p, n);
    }
    forall v | v in p'.holder ensures HolderOk(p', v) {
      assert HolderOk(p, v);
    }
    forall v | v in p'.marker ensures MarkerOk(p', v) {
      assert MarkerOk(p, v);
    }
  }

  lemma AcquireKeeps(p: Pool, m: nat)
    requires Inv(p) && Apply(p, Acquire(m)).Some?
    ensures Inv(Apply(p, Acquire(m)).value)
  {
    var i := FirstFree(p.busy, p.cancelled);
    var u := if i < p.size then i else p.nextUrb;
    assert u in p.holder ==> HolderOk(p, u);
    assert u in p.marker ==> MarkerOk(p, u);
    TakeKeeps(p, Apply(p, Acquire(m)).value, m, u);
  }

  lemma CancelKeeps(p: Pool, e: Event)
    requires Inv(p) && Apply(p, e).Some? && (e.Mark? || e.Unmark?)
    ensures Inv(Apply(p, e).value)
  {
    var msg, p' := p.messages[e.m], Apply(p, e).value;
    assert MessageOk(p, e.m);
    if e.Mark? {
      if msg.hcpriv.None? {
        SwapKeeps(p, p', e.m, msg.(cancel := Marked(None)));
      } else {
        MarkKeeps(p, p', e.m, msg.hcpriv.value);
      }
    } else if msg.cancel.urb.None? {
      SwapKeeps(p, p', e.m, msg.(cancel := Cancelled));
    } else {
      UnmarkKeeps(p, p', e.m, msg.cancel.urb.value);
    }
  }

  lemma SendKeeps(p: Pool, e: Event)
    requires Inv(p) && Apply(p, e).Some?
    requires e.New? || e.SetPriv? || e.Submit? || e.Complete? || e.ClearPriv? || e.Kill?
    ensures Inv(Apply(p, e).value)
  {
    var p' := Apply(p, e).value;
    assert e.m in p.messages ==> MessageOk(p, e.m);
    SwapKeeps(p, p', e.m, p'.messages[e.m]);
  }

  lemma FreeKeeps(p: Pool, m: nat)
    requires Inv(p) && Apply(p, Free(m)).Some?
    ensures Inv(Apply(p, Free(m)).value)
  {
    assert MessageOk(p, m);
    GiveKeeps(p, Apply(p, Free(m)).value, m, p.messages[m].phase.u);
  }

  lemma ApplyKeeps(p: Pool, e: Event)
    requires Inv(p) && Apply(p, e).Some?
    ensures Inv(Apply(p, e).value)
  {
    match e
    case Acquire(m) => AcquireKeeps(p, m);
    case Free(m) => FreeKeeps(p, m);
    case Mark(_) => CancelKeeps(p, e);
    case Unmark(_) => CancelKeeps(p, e);
    case _ => SendKeeps(p, e);
  }

  lemma {:induction false} ExecKeeps(p: Pool, es: seq<Event>)
    requires Inv(p) && Exec(p, es).Some?
    ensures Inv(Exec(p, es).value)
    decreases |es|
  {
    if es != [] {
      ApplyKeeps(p, es[0]);
      ExecKeeps(Apply(p, es[0]).value, es[1..]);
    }
  }

  // --------------------------------------------------------------- theorems

  /** In every run hcpriv names only a block held by its own message. */
  lemma PrivIsOwn(size: nat, es: seq<Event>, p: Pool, m: nat)
    requires Exec(Start(size), es) == Some(p) && m in p.messages && p.messages[m].hcpriv.Some?
    ensures p.messages[m].hcpriv == Held(p.messages[m].phase)
  {
    ExecKeeps(Start(size), es);
    assert MessageOk(p, m);
  }

  /** In every run a block of the pool is busy exactly when some message holds it. */
  lemma BusyIffHeld(size: nat, es: seq<Event>, p: Pool, u: nat)
    requires Exec(Start(size), es) == Some(p) && u < size
    ensures |p.busy| == size
    ensures p.busy[u] <==> exists k :: k in p.messages && Held(p.messages[k].phase) == Some(u)
  {
    ExecKeeps(Start(size), es);
    SizeStays(Start(size), es);
    if u in p.holder {
      assert HolderOk(p, u);
    }
    if k :| k in p.messages && Held(p.messages[k].phase) == Some(u) {
      assert MessageOk(p, k);
    }
  }

  lemma {:induction false} SizeStays(p: Pool, es: seq<Event>)
    requires Exec(p, es).Some?
    ensures Exec(p, es).value.size == p.size
    decreases |es|
  {
    if es != [] {
      SizeStays(Apply(p, es[0]).value, es[1..]);
    }
  }

  /** In every run a block is held by at most one message. */
  lemma OneHolder(size: nat, es: seq<Event>, p: Pool, m: nat, n: nat)
    requires Exec(Start(size), es) == Some(p) && m in p.messages && n in p.messages
    requires Held(p.messages[m].phase).Some? && Held(p.messages[m].phase) == Held(p.messages[n].phase)
    ensures m == n
  {
    ExecKeeps(Start(size), es);
    assert MessageOk(p, m) && MessageOk(p, n);
  }

  /** In every run the kill in message_cancel never hits a block that carries another message: from the moment
      a canceller has marked a block until it unmarks it, no other message holds it. */
  lemma KillHitsOnlyOwn(size: nat, es: seq<Event>, p: Pool, m: nat, n: nat)
    requires Exec(Start(size), es) == Some(p) && m in p.messages && n in p.messages && m != n
    requires Kept(p.messages[m].cancel).Some?
    ensures Held(p.messages[n].phase) != Kept(p.messages[m].cancel)
    ensures Kept(p.messages[n].cancel) != Kept(p.messages[m].cancel)
  {
    ExecKeeps(Start(size), es);
    assert MessageOk(p, m) && MessageOk(p, n);
  }

  // ------------------------------------------------------ cancel waits for the report

  /** The USB stack has been given the message. */
  predicate AfterSubmit(p: Phase) {
    InFlight(p) || p.Sent?
  }

  /** The callback has reported the message as sent and cleared its hcpriv. */
  predicate HasReported(p: Phase) {
    p.Releasing? || p.Sent?
  }

  /** A canceller that came after the submission waits for the right block. */
  predicate WaitsForReport(msg: Message) {
    && AfterSubmit(msg.phase)
    && (msg.cancel.Marked? && !HasReported(msg.phase) ==> msg.cancel.urb == Held(msg.phase))
    && (msg.cancel.Killed? || msg.cancel.Cancelled? ==> HasReported(msg.phase))
  }

  lemma WaitsNext(p: Pool, e: Event, m: nat)
    requires Inv(p) && m in p.messages && WaitsForReport(p.messages[m]) && Apply(p, e).Some?
    ensures m in Apply(p, e).value.messages && WaitsForReport(Apply(p, e).value.messages[m])
  {
    if e.m != m {
      OthersLeave(p, e, m);
    } else if e.Kill? {
      KillWaits(p, m);
    } else {
      assert MessageOk(p, m);
    }
  }

  lemma OthersLeave(p: Pool, e: Event, m: nat)
    requires m in p.messages && e.m != m && Apply(p, e).Some?
    ensures m in Apply(p, e).value.messages && Apply(p, e).value.messages[m] == p.messages[m]
  {
  }

  lemma KillWaits(p: Pool, m: nat)
    requires m in p.messages && WaitsForReport(p.messages[m]) && Apply(p, Kill(m)).Some?
    ensures WaitsForReport(Apply(p, Kill(m)).value.messages[m])
  {
  }

  lemma {:induction false} WaitsOn(p: Pool, es: seq<Event>, m: nat)
    requires Inv(p) && m in p.messages && WaitsForReport(p.messages[m]) && Exec(p, es).Some?
    ensures m in Exec(p, es).value.messages && WaitsForReport(Exec(p, es).value.messages[m])
    decreases |es|
  {
    if es != [] {
      WaitsNext(p, es[0], m);
      ApplyKeeps(p, es[0]);
      WaitsOn(Apply(p, es[0]).value, es[1..], m);
    }
  }

  /** In every run, a message that has been given to the USB stack before its cancellation began has been reported as
      sent, and its hcpriv cleared, when the kill in message_cancel has returned. */
  lemma KilledHasReported(size: nat, es: seq<Event>, p: Pool, fs: seq<Event>, p': Pool, m: nat)
    requires Exec(Start(size), es) == Some(p) && Exec(p, fs) == Some(p')
    requires m in p.messages && AfterSubmit(p.messages[m].phase) && p.messages[m].cancel.NoCancel?
    ensures m in p'.messages
    ensures p'.messages[m].cancel.Killed? || p'.messages[m].cancel.Cancelled? ==> HasReported(p'.messages[m].phase)
  {
    ExecKeeps(Start(size), es);
    WaitsOn(p, fs, m);
  }

  // ----------------------------------------------------------------- it goes on

  /** In every run a new message gets a block: the first of the pool that is neither held nor kept from reuse by a
      canceller, and a fresh one exactly when there is none. */
  lemma AcquireTakesFirst(size: nat, es: seq<Event>, p: Pool, m: nat)
    requires Exec(Start(size), es) == Some(p) && m in p.messages && p.messages[m].phase.NotSent?
    ensures Apply(p, Acquire(m)).Some?
    ensures var p' := Apply(p, Acquire(m)).value;
      exists u :: m in p'.messages && p'.messages[m].phase == Acquired(u) && IsFirst(p, u, size)
  {
    ExecKeeps(Start(size), es);
    SizeStays(Start(size), es);
    var i := FirstFree(p.busy, p.cancelled);
    FirstIsFree(p, if i < p.size then i else p.nextUrb);
  }

  lemma FirstIsFree(p: Pool, u: nat)
    requires Inv(p)
    requires var i := FirstFree(p.busy, p.cancelled); u == if i < p.size then i else p.nextUrb
    ensures IsFirst(p, u, p.size)
  {
    TakenIsHeld(p, u);
    ProtectedIsMarked(p, u);
    assert u in p.holder ==> HolderOk(p, u);
    assert u in p.marker ==> MarkerOk(p, u);
    forall v: nat | v < u && v < p.size ensures Taken(p, v) || Protected(p, v) {
      TakenIsHeld(p, v);
      ProtectedIsMarked(p, v);
    }
  }

  /** Some message holds the block; some canceller keeps it from reuse. */
  ghost predicate Taken(p: Pool, u: nat) {
    exists k :: k in p.messages && Held(p.messages[k].phase) == Some(u)
  }

  ghost predicate Protected(p: Pool, u: nat) {
    exists k :: k in p.messages && Kept(p.messages[k].cancel) == Some(u)
  }

  ghost predicate IsFirst(p: Pool, u: nat, size: nat) {
    !Taken(p, u) && !Protected(p, u) && forall v: nat :: v < u && v < size ==> Taken(p, v) || Protected(p, v)
  }

  lemma TakenIsHeld(p: Pool, u: nat)
    requires Inv(p)
    ensures u in p.holder <==> Taken(p, u)
  {
    if u in p.holder {
      assert HolderOk(p, u);
    }
    if k :| k in p.messages && Held(p.messages[k].phase) == Some(u) {
      assert MessageOk(p, k);
    }
  }

  lemma ProtectedIsMarked(p: Pool, u: nat)
    requires Inv(p)
    ensures u in p.marker <==> Protected(p, u)
  {
    if u in p.marker {
      assert MarkerOk(p, u);
    }
    if k :| k in p.messages && Kept(p.messages[k].cancel) == Some(u) {
      assert MessageOk(p, k);
    }
  }

  /** Nothing is left to do for the message. */
  predicate Finished(msg: Message) {
    (msg.phase.NotSent? || msg.phase.Sent?) && (msg.cancel.NoCancel? || msg.cancel.Cancelled?)
  }

  function Unfinished(p: Pool): set<nat> {
    set m | m in p.messages && !Finished(p.messages[m])
  }

  /** Steps that the sender, the stack and the callback have still to take for a message that holds a block. */
  function Rank(phase: Phase): nat {
    match phase
    case NotSent => 0
    case Sent => 0
    case Releasing(_) => 1
    case Failed(_) => 2
    case Reporting(_) => 2
    case Submitted(_) => 3
    case Filled(_) => 4
    case Acquired(_) => 5
  }

  /** Only message m has changed. */
  ghost predicate OnlyChanges(p: Pool, p': Pool, m: nat) {
    && p'.messages.Keys == p.messages.Keys
    && forall n :: n in p.messages && n != m ==> p'.messages[n] == p.messages[n]
  }

  lemma SubmitStep(p: Pool, m: nat) returns (e: Event)
    requires Inv(p) && m in p.messages && Rank(p.messages[m].phase) >= 4
    ensures Apply(p, e).Some? && OnlyChanges(p, Apply(p, e).value, m)
    ensures var msg := Apply(p, e).value.messages[m];
      Rank(msg.phase) < Rank(p.messages[m].phase) && msg.cancel == p.messages[m].cancel && !msg.phase.NotSent?
  {
    e := if p.messages[m].phase.Acquired? then SetPriv(m) else Submit(m, true);
  }

  lemma CallbackStep(p: Pool, m: nat) returns (e: Event)
    requires Inv(p) && m in p.messages && 1 <= Rank(p.messages[m].phase) <= 3
    ensures Apply(p, e).Some? && OnlyChanges(p, Apply(p, e).value, m)
    ensures var msg := Apply(p, e).value.messages[m];
      Rank(msg.phase) < Rank(p.messages[m].phase) && msg.cancel == p.messages[m].cancel && !msg.phase.NotSent?
  {
    var phase := p.messages[m].phase;
    e := if phase.Submitted? then Complete(m) else if phase.Releasing? then Free(m) else ClearPriv(m);
  }

  /** A message that holds a block can be taken one step further, whatever all others do. */
  lemma SendStep(p: Pool, m: nat) returns (e: Event)
    requires Inv(p) && m in p.messages && Held(p.messages[m].phase).Some?
    ensures Apply(p, e).Some? && OnlyChanges(p, Apply(p, e).value, m)
    ensures var msg := Apply(p, e).value.messages[m];
      Rank(msg.phase) < Rank(p.messages[m].phase) && msg.cancel == p.messages[m].cancel && !msg.phase.NotSent?
  {
    if Rank(p.messages[m].phase) >= 4 {
      e := SubmitStep(p, m);
    } else {
      e := CallbackStep(p, m);
    }
  }

  lemma {:induction false} ReturnBlock(p: Pool, m: nat) returns (es: seq<Event>, p': Pool)
    requires Inv(p) && m in p.messages
    ensures Exec(p, es) == Some(p') && Inv(p') && OnlyChanges(p, p', m)
    ensures p'.messages[m].phase.NotSent? || p'.messages[m].phase.Sent?
    ensures p'.messages[m].cancel == p.messages[m].cancel
    decreases Rank(p.messages[m].phase)
  {
    if Held(p.messages[m].phase).None? {
      es, p' := [], p;
    } else {
      var e := SendStep(p, m);
      ApplyKeeps(p, e);
      var rest;
      rest, p' := ReturnBlock(Apply(p, e).value, m);
      es := [e] + rest;
      assert es[1..] == rest;
    }
  }

  /** With its message out of the way, a canceller can kill and unmark. */
  lemma {:induction false} FinishCancel(p: Pool, m: nat) returns (es: seq<Event>, p': Pool)
    requires Inv(p) && m in p.messages && (p.messages[m].phase.NotSent? || p.messages[m].phase.Sent?)
    ensures Exec(p, es) == Some(p') && Inv(p') && OnlyChanges(p, p', m) && Finished(p'.messages[m])
    decreases Owed(p.messages[m].cancel)
  {
    if Owed(p.messages[m].cancel) == 0 {
      es, p' := [], p;
    } else {
      var e := CancelStep(p, m);
      ApplyKeeps(p, e);
      var rest;
      rest, p' := FinishCancel(Apply(p, e).value, m);
      es := [e] + rest;
      assert es[1..] == rest;
    }
  }

  /** Steps that a canceller has still to take. */
  function Owed(c: Cancel): nat {
    match c
    case NoCancel => 0
    case Cancelled => 0
    case Killed(_) => 1
    case Marked(_) => 2
  }

  lemma CancelStep(p: Pool, m: nat) returns (e: Event)
    requires Inv(p) && m in p.messages && (p.messages[m].phase.NotSent? || p.messages[m].phase.Sent?)
    requires Owed(p.messages[m].cancel) > 0
    ensures Apply(p, e).Some? && OnlyChanges(p, Apply(p, e).value, m)
    ensures var msg := Apply(p, e).value.messages[m];
      Owed(msg.cancel) < Owed(p.messages[m].cancel) && msg.phase == p.messages[m].phase
  {
    if p.messages[m].cancel.Marked? {
      CanKill(p, m);
      e := Kill(m);
    } else {
      e := Unmark(m);
    }
  }

  lemma CanKill(p: Pool, m: nat)
    requires Inv(p) && m in p.messages && p.messages[m].cancel.Marked? && Held(p.messages[m].phase).None?
    ensures Apply(p, Kill(m)).Some?
  {
    forall n | n in p.messages && InFlight(p.messages[n].phase)
      ensures Held(p.messages[n].phase) != p.messages[m].cancel.urb
    {
      assert MessageOk(p, m) && MessageOk(p, n);
    }
  }

  /** From every state of every run, all senders and cancellers can be brought to their end, and then no block of the
      pool is busy or marked as cancelled. */
  lemma {:induction false} CanFinish(p: Pool) returns (es: seq<Event>, p': Pool)
    requires Inv(p)
    ensures Exec(p, es) == Some(p') && Inv(p') && p'.messages.Keys == p.messages.Keys
    ensures forall m :: m in p'.messages ==> Finished(p'.messages[m])
    decreases |Unfinished(p)|
  {
    if Unfinished(p) == {} {
      es, p' := [], p;
      assert forall m :: m in p.messages && !Finished(p.messages[m]) ==> m in Unfinished(p);
    } else {
      var m :| m in Unfinished(p);
      var es1, p1 := ReturnBlock(p, m);
      var es2, p2 := FinishCancel(p1, m);
      assert Unfinished(p2) <= Unfinished(p) - {m};
      FewerUnfinished(Unfinished(p2), Unfinished(p), m);
      var es3;
      es3, p' := CanFinish(p2);
      ExecAppend(p1, es2, es3);
      ExecAppend(p, es1, es2 + es3);
      es := es1 + (es2 + es3);
    }
  }

  lemma FewerUnfinished(a: set<nat>, b: set<nat>, m: nat)
    requires m in b && a <= b - {m}
    ensures |a| < |b|
  {
    Smaller(a, b - {m});
  }

  lemma {:induction false} Smaller(a: set<nat>, b: set<nat>)
    requires a <= b
    ensures |a| <= |b|
  {
    if a != {} {
      var x :| x in a;
      Smaller(a - {x}, b - {x});
    }
  }

  lemma {:induction false} ExecAppend(p: Pool, es: seq<Event>, fs: seq<Event>)
    requires Exec(p, es).Some?
    ensures Exec(p, es + fs) == Exec(Exec(p, es).value, fs)
    decreases |es|
  {
    if es == [] {
      assert es + fs == fs;
    } else {
      ExecAppend(Apply(p, es[0]).value, es[1..], fs);
      assert (es + fs)[1..] == es[1..] + fs;
    }
  }

  /** In every run, whatever has happened, the pool can be emptied again. */
  lemma PoolCanBeEmptied(size: nat, es: seq<Event>, p: Pool)
    requires Exec(Start(size), es) == Some(p)
    ensures exists fs, p' :: Exec(p, fs) == Some(p') && Empty(p', size)
  {
    ExecKeeps(Start(size), es);
    SizeStays(Start(size), es);
    var fs, p' := CanFinish(p);
    SizeStays(p, fs);
    forall u: nat | u < size ensures !p'.busy[u] && !p'.cancelled[u] {
      TakenIsHeld(p', u);
      ProtectedIsMarked(p', u);
    }
    assert Empty(p', size);
  }

  predicate Empty(p: Pool, size: nat) {
    && p.busy == seq(size, _ => false) && p.cancelled == seq(size, _ => false)
    && forall m :: m in p.messages ==> Finished(p.messages[m])
  }
}
