/** The life of one connection: binding a protocol, bringing it up, failing, retrying, tearing it down. */
module Lifecycle {
  import opened Common

  datatype State = Disabled | Enabled | Error | Destroying

  /** What the outside answers during one bind attempt. */
  datatype Answers = Answers(
    found: bool,         // gb_protocol_get finds the protocol
    connected: int,      // result of the "connected" control operation
    version: int,        // result of gb_protocol_get_version
    init: int)           // result of the protocol's connection_init

  datatype Call = Bind(answers: Answers) | Destroy

  /** What the connection asks of the outside. */
  datatype Request =
    | GetProtocol | PutProtocol
    | Connect | Disconnect          // control operations to the interface
    | GetVersion
    | InitProtocol | ExitProtocol   // connection_init and connection_exit
    | CancelOperations

  class Connection {
    const svc: bool               // hd_cport_id == GB_SVC_CPORT_ID
    const control: bool           // intf_cport_id == GB_CONTROL_CPORT_ID
    const online: bool            // SVC connection without bundle, or the interface has a device id
    var state: State
    var protocol: bool            // connection->protocol != NULL

    // history
    ghost var trace: seq<Request> // everything asked for, in order
    ghost var connects: nat       // successful "connected" operations
    ghost var disconnects: nat    // "disconnected" operations
    ghost var inits: nat          // successful connection_init calls
    ghost var exits: nat          // connection_exit calls
    ghost var gets: nat           // protocol references taken
    ghost var puts: nat           // protocol references returned

    /** Ordinary CPorts announce themselves to their interface. */
    predicate Ordinary() {
      !svc && !control
    }

    ghost predicate Valid()
      reads this
    {
      && (state.Enabled? <==> protocol && online)
      && (if Ordinary() then connects == disconnects + Bit(state.Enabled?) else connects == 0 && disconnects == 0)
      && inits == exits + Bit(state.Enabled?)
      && gets == puts + Bit(protocol)
      && (state.Destroying? ==> !protocol)
    }

    /** Every step of bringing the connection up that applies to this CPort succeeds. */
    predicate ComesUp(a: Answers) {
      (Ordinary() ==> a.connected == 0) && (!svc ==> a.version == 0) && a.init == 0
    }

    /** The first result other than zero of the steps that apply, in the order in which they are taken. */
    function Result(a: Answers): int {
      if Ordinary() && a.connected != 0 then a.connected
      else if !svc && a.version != 0 then a.version
      else a.init
    }

    /** What one attempt to bring the connection up asks for. */
    function Attempt(a: Answers): seq<Request> {
      if Ordinary() && a.connected != 0 then [Connect]
      else
        (if Ordinary() then [Connect] else [])
        + (if svc then [InitProtocol] else if a.version != 0 then [GetVersion] else [GetVersion, InitProtocol])
        + (if Ordinary() && Result(a) != 0 then [Disconnect] else [])
    }

    constructor (svc: bool, control: bool, online: bool)
      ensures trace == []
      ensures Valid() && state.Disabled? && !protocol && inits == 0 && connects == 0 && gets == 0
      ensures this.svc == svc && this.control == control && this.online == online
    {
      this.svc, this.control, this.online := svc, control, online;
      state, protocol := Disabled, false;
      trace := [];
      connects, disconnects, inits, exits, gets, puts := 0, 0, 0, 0, 0, 0;
    }

    /** gb_connection_disconnected. */
    method Disconnected()
      modifies this`disconnects, this`trace
      ensures disconnects == old(disconnects) + Bit(Ordinary())
      ensures trace == old(trace) + if Ordinary() then [Disconnect] else []
    {
      if control || svc {
        return;
      }
      disconnects := disconnects + 1;
      trace := trace + [Disconnect];
    }

    /** gb_connection_init.  It succeeds exactly when every step that applies to this CPort succeeds;
        a refused "connected" leaves the state alone, any later failure leaves it in Error and undoes
        the announcement. */
    method Init(a: Answers) returns (ret: int)
      requires protocol && !state.Enabled?
      modifies this`state, this`connects, this`disconnects, this`inits, this`trace
      ensures ret == 0 <==> ComesUp(a)
      ensures ret == Result(a) && trace == old(trace) + Attempt(a)
      ensures ret == 0 ==> state.Enabled? && inits == old(inits) + 1
      ensures ret == 0 ==> disconnects == old(disconnects) && connects == old(connects) + Bit(Ordinary())
      ensures ret != 0 ==> inits == old(inits) && connects - disconnects == old(connects - disconnects)
      ensures connects == old(connects) + Bit(Ordinary() && a.connected == 0)
      ensures ret != 0 ==> state == if Ordinary() && a.connected != 0 then old(state) else Error
      ensures !Ordinary() ==> connects == old(connects) && disconnects == old(disconnects)
    {
      if !control && !svc {
        ret := a.connected;
        trace := trace + [Connect];
        if ret != 0 {
          return;
        }
        connects := connects + 1;
      }
      state := Enabled;
      ret := 0;
      if !svc {
        ret := a.version;
        trace := trace + [GetVersion];
      }
      if ret == 0 {
        ret := a.init;
        trace := trace + [InitProtocol];
        if ret == 0 {
          inits := inits + 1;
          return;
        }
      }
      state := Error;
      Disconnected();
    }

    /** gb_connection_bind_protocol: nothing when bound already or when the protocol is not there. */
    method BindProtocol(a: Answers) returns (ret: int)
      requires Valid() && !state.Destroying?
      modifies this
      ensures Valid() && !state.Destroying?
      ensures old(protocol) || !a.found ==> ret == 0 && state == old(state) && protocol == old(protocol)
      ensures !old(protocol) && a.found ==> (protocol <==> ret == 0) && (ret == 0 <==> online ==> ComesUp(a))
      ensures inits == old(inits) + Bit(state.Enabled? && !old(state).Enabled?) && exits == old(exits)
      ensures (trace == old(trace) +
               if old(protocol) then [] else
               [GetProtocol] + (if a.found && online then Attempt(a) else [])
               + (if a.found && ret != 0 then [PutProtocol] else []))
      ensures !old(protocol) && a.found ==> ret == if online then Result(a) else 0
    {
      if protocol {
        return 0;
      }
      trace := trace + [GetProtocol];
      if !a.found {
        return 0;
      }
      gets := gets + 1;
      protocol := true;
      ret := 0;
      if online {
        ret := Init(a);
        if ret != 0 {
          puts := puts + 1;
          protocol := false;
          trace := trace + [PutProtocol];
        }
      }
    }

    /** Operations are cancelled before the protocol lets go, and the interface is told last. */
    function Shutdown(): seq<Request> {
      [CancelOperations, ExitProtocol] + if Ordinary() then [Disconnect] else []
    }

    /** gb_connection_exit: only an enabled connection is torn down. */
    method Exit()
      requires Valid() && !state.Destroying?
      modifies this
      ensures protocol == old(protocol) && gets == old(gets) && puts == old(puts)
      ensures inits == old(inits) && exits == old(exits) + Bit(old(state).Enabled?)
      ensures connects == old(connects)
      ensures disconnects == old(disconnects) + Bit(old(state).Enabled? && Ordinary())
      ensures state == if old(state).Enabled? then Destroying else old(state)
      ensures trace == old(trace) + if old(state).Enabled? then Shutdown() else []
    {
      if !protocol || !state.Enabled? {
        return;
      }
      state := Destroying;
      trace := trace + [CancelOperations];
      trace := trace + [ExitProtocol];
      exits := exits + 1;
      Disconnected();
    }

    /** gb_connection_destroy: afterwards everything taken has been returned. */
    method DestroyConnection()
      requires Valid() && !state.Destroying?
      modifies this
      ensures Valid() && !state.Enabled? && !protocol
      ensures connects == disconnects && inits == exits && gets == puts
      ensures exits == old(exits) + Bit(old(state).Enabled?) && inits == old(inits)
      ensures (trace == old(trace) + (if old(state).Enabled? then Shutdown() else [])
                        + (if old(protocol) then [PutProtocol] else []))
    {
      Exit();
      if protocol {
        puts := puts + 1;
        trace := trace + [PutProtocol];
      }
      protocol := false;
    }

    /** Some bind attempt so far found the protocol and came up. */
    predicate CameUp(calls: seq<Call>) {
      exists i :: 0 <= i < |calls| && calls[i].Bind? && calls[i].answers.found && ComesUp(calls[i].answers)
    }

    /** After these attempts the connection is up: it was before, or it was unbound, its interface can be reached and
        some attempt came up. */
    predicate Up(enabled: bool, bound: bool, calls: seq<Call>) {
      enabled || (!bound && online && CameUp(calls))
    }

    /**
     Any serial run of bind attempts, failed or not, up to a destroy.  Along the whole run an ordinary CPort
     is announced exactly while it is enabled, and an enabled connection has a protocol (Valid); a connection is
     enabled exactly when it is up, so connection_init succeeds at most once; and a destroy runs connection_exit
     once if it did, and never otherwise.
     */
    method Run(calls: seq<Call>) returns (done: nat)
      requires Valid() && !state.Destroying?
      modifies this
      ensures Valid() && done <= |calls|
      ensures forall i :: 0 <= i < done ==> calls[i].Bind?
      ensures done < |calls| ==> calls[done].Destroy?
      ensures (done == |calls| ==>
               && (state.Enabled? <==> Up(old(state).Enabled?, old(protocol), calls)) && exits == old(exits))
      ensures (done < |calls| ==>
               && !state.Enabled?
               && exits == old(exits) + Bit(Up(old(state).Enabled?, old(protocol), calls[..done])))
      ensures (inits == old(inits) + Bit(!old(state).Enabled? && Up(false, old(protocol), calls[..done])))
    {
      done := 0;
      while done < |calls|
        invariant done <= |calls| && Valid() && !state.Destroying?
        invariant forall i :: 0 <= i < done ==> calls[i].Bind?
        invariant state.Enabled? <==> Up(old(state).Enabled?, old(protocol), calls[..done])
        invariant old(protocol) ==> protocol
        invariant protocol && !old(protocol) && online ==> CameUp(calls[..done])
        invariant inits == old(inits) + Bit(state.Enabled? && !old(state).Enabled?) && exits == old(exits)
        decreases |calls| - done
      {
        assert calls[..done + 1] == calls[..done] + [calls[done]];
        if calls[done].Destroy? {
          DestroyConnection();
          return;
        }
        var _ := BindProtocol(calls[done].answers);
        Extend(calls[..done], calls[done]);
        done := done + 1;
      }
      assert calls[..done] == calls;
    }

    lemma Extend(calls: seq<Call>, call: Call)
      ensures CameUp(calls + [call]) <==> CameUp(calls) || (call.Bind? && call.answers.found && ComesUp(call.answers))
    {
      var all := calls + [call];
      assert forall i :: 0 <= i < |calls| ==> all[i] == calls[i];
      assert all[|calls|] == call;
    }
  }
}
