/** JdwpProxySession (proxy.py): the code of each step, proved to be the session's step. */
module Proxy {
  import opened Results
  import opened Bytes
  import opened Spec
  import opened Packet
  import opened Io
  import opened Vm
  import opened ProxySession

  class JdwpProxySession {
    var spec: IdSizesSpec
    var idsizesCmdIds: set<nat>
    var outstandingCommands: map<nat, (int, int)>
    var closeEvent: bool
    /** The bytes handed to the two senders. */
    var sentToVm: bytes
    var sentToDbg: bytes
    ghost var dbg: LoopPhase
    ghost var vm: LoopPhase
    ghost var readFromDbg: bytes
    ghost var readFromVm: bytes
    ghost var withheld: bytes
    ghost var events: seq<Event>
    ghost var log: seq<LogEntry>

    ghost function Abs(): Session
      reads this
    {
      Session(spec, idsizesCmdIds, outstandingCommands, closeEvent, dbg, vm, readFromDbg, sentToVm,
              readFromVm, sentToDbg, withheld, events, log)
    }

    constructor ()
      ensures Abs() == NEW_SESSION
    {
      spec := DEFAULT_SPEC;
      idsizesCmdIds := {};
      outstandingCommands := map[];
      closeEvent := false;
      sentToVm, sentToDbg := [], [];
      dbg, vm := Receiving, Receiving;
      readFromDbg, readFromVm, withheld := [], [], [];
      events := [];
      log := [];
    }

    // ----- the debugger loop -----

    /** receive returned a packet: _handle_debugger_packet up to the drain of the send. */
    method HandleDebuggerPacket(packet: JdwpPacket, ghost frame: bytes)
      requires ProxyEnabled(Abs(), DebuggerFrame(frame)) && ParseFrame(frame).value.0 == packet
      modifies this
      ensures Abs() == ProxyApply(old(Abs()), DebuggerFrame(frame))
    {
      hide ParseFrame, EncodePacket, ToBytes;
      FrameCanBeSent(frame);
      readFromDbg := readFromDbg + frame;
      events := events + [FromDebugger(packet)];
      if packet.CommandPacket? {
        outstandingCommands := outstandingCommands[packet.id := (packet.commandSet, packet.command)];
        if packet.commandSet == 1 && packet.command == 7 {
          idsizesCmdIds := idsizesCmdIds + {packet.id};
        }
      }
      sentToVm := sentToVm + ToBytes(packet).value;
      dbg := Draining(packet, |events|);
    }

    /** The send completed; the result says whether the loop takes another turn. */
    method AfterDebuggerSend() returns (again: bool)
      requires ProxyEnabled(Abs(), DebuggerSent)
      modifies this
      ensures Abs() == ProxyApply(old(Abs()), DebuggerSent)
      ensures again <==> dbg.Receiving?
    {
      again := !closeEvent;
      dbg := if again then Receiving else Done;
    }

    method HandleDebuggerException()
      requires ProxyEnabled(Abs(), DebuggerRaised)
      modifies this
      ensures Abs() == ProxyApply(old(Abs()), DebuggerRaised)
    {
      closeEvent := true;
      dbg := Done;
    }

    // ----- the VM loop -----

    /** IDSizesResponse.from_bytes and IdSizesSpec.from_response, on a reader of its own. */
    method DecodeSpec(payload: bytes) returns (r: Result<IdSizesSpec>)
      ensures r == SpecFromReply(payload)
    {
      var reader := new JdwpReader(payload, spec);
      var response :- DeserializeIdSizes(reader);
      r := SpecFromResponse(response);
    }

    /** receive returned a packet: _handle_vm_packet up to the drain of the send, or what it raises. */
    method HandleVmPacket(packet: JdwpPacket, ghost frame: bytes)
      requires ProxyEnabled(Abs(), VmFrame(frame)) && ParseFrame(frame).value.0 == packet
      modifies this
      ensures Abs() == ProxyApply(old(Abs()), VmFrame(frame))
    {
      hide ParseFrame, EncodePacket, ToBytes, SpecFromReply;
      FrameCanBeSent(frame);
      readFromVm := readFromVm + frame;
      events := events + [FromVm(packet)];
      if packet.ReplyPacket? && packet.id in idsizesCmdIds {
        idsizesCmdIds := idsizesCmdIds - {packet.id};
        if packet.errorCode == 0 {
          var decoded := DecodeSpec(packet.data);
          if decoded.Err? {
            withheld := frame;
            HandleVmException();
            return;
          }
          spec := decoded.value;
        }
      }
      sentToDbg := sentToDbg + ToBytes(packet).value;
      vm := Draining(packet, |events|);
    }

    /** _format_parsed_reply's lookup. */
    function CommandInfo(packet: JdwpPacket): (r: Option<(int, int)>)
      reads this
    {
      if packet.ReplyPacket? && packet.id in outstandingCommands then Some(outstandingCommands[packet.id])
      else None
    }

    /** The send completed: the packet is logged, and a reply's table entry goes. */
    method AfterVmSend(packet: JdwpPacket) returns (again: bool)
      requires ProxyEnabled(Abs(), VmSent) && vm.p == packet
      modifies this
      ensures Abs() == ProxyApply(old(Abs()), VmSent)
      ensures again <==> vm.Receiving?
    {
      log := log + [LogEntry(packet, vm.at, CommandInfo(packet), spec)];
      events := events + [Handled(packet)];
      if packet.ReplyPacket? {
        outstandingCommands := outstandingCommands - {packet.id};
      }
      again := !closeEvent;
      vm := if again then Receiving else Done;
    }

    method HandleVmException()
      requires !vm.Done?
      modifies this`closeEvent, this`vm
      ensures Abs() == old(Abs()).(closeEvent := true, vm := Done)
    {
      closeEvent := true;
      vm := Done;
    }
  }
}
