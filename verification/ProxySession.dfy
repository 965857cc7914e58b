/**
  * The proxy session (proxy.py) as a transition system of its two forwarding loops, which share the
  * tracked ID sizes, the two correlation tables and the close event.
  */
module ProxySession {
  import opened Results
  import opened Bytes
  import opened Spec
  import opened Packet
  import opened Vm

  /** Where a loop is suspended: in receive, or in the send of a packet (the at-th taken), or ended. */
  datatype LoopPhase = Receiving | Draining(p: JdwpPacket, at: nat) | Done

  /** A packet taken from a peer, or a packet from the VM that _handle_vm_packet is done with. */
  datatype Event = FromDebugger(p: JdwpPacket) | FromVm(p: JdwpPacket) | Handled(p: JdwpPacket)

  /** A logged VM packet: the table entry and the spec it was formatted with. */
  datatype LogEntry = LogEntry(p: JdwpPacket, at: nat, lookup: Option<(int, int)>, spec: IdSizesSpec)

  /**
    * The fields of JdwpProxySession, the phases of its loops, and history: complete frames read from
    * each peer, bytes written to each peer, the last frame if it was withheld, the events in their order,
    * and the log of VM packets.
    */
  datatype Session = Session(
    spec: IdSizesSpec,
    idsizesIds: set<nat>,
    outstanding: map<nat, (int, int)>,
    closeEvent: bool,
    dbg: LoopPhase,
    vm: LoopPhase,
    readFromDbg: bytes,
    sentToVm: bytes,
    readFromVm: bytes,
    sentToDbg: bytes,
    withheld: bytes,
    events: seq<Event>,
    log: seq<LogEntry>)

  const NEW_SESSION :=
    Session(DEFAULT_SPEC, {}, map[], false, Receiving, Receiving, [], [], [], [], [], [], [])

  datatype ProxyStep =
    | DebuggerFrame(frame: bytes)   // receive returned: tables updated, bytes written
    | DebuggerSent                  // the send completed: logged, next turn of the loop
    | DebuggerRaised                // receive or send raised
    | DebuggerCancelled
    | VmFrame(frame: bytes)
    | VmSent
    | VmRaised
    | VmCancelled

  /** A stream's next bytes are one complete frame. */
  predicate IsFrame(frame: bytes) {
    ParseFrame(frame).Ok? && ParseFrame(frame).value.1 == |frame|
  }

  predicate ProxyEnabled(s: Session, st: ProxyStep) {
    match st
    case DebuggerFrame(frame) => s.dbg.Receiving? && IsFrame(frame)
    case DebuggerSent => s.dbg.Draining?
    case DebuggerRaised | DebuggerCancelled => !s.dbg.Done?
    case VmFrame(frame) => s.vm.Receiving? && IsFrame(frame)
    case VmSent => s.vm.Draining?
    case VmRaised | VmCancelled => !s.vm.Done?
  }

  predicate IsIdSizesCommand(p: JdwpPacket) {
    p.CommandPacket? && p.commandSet == 1 && p.command == 7
  }

  /** `while not self.close_event.is_set()` */
  function NextTurn(s: Session): LoopPhase {
    if s.closeEvent then Done else Receiving
  }

  function HandleDebuggerPacket(s: Session, p: JdwpPacket): Session {
    s.(outstanding := if p.CommandPacket? then s.outstanding[p.id := (p.commandSet, p.command)] else s.outstanding,
       idsizesIds := if IsIdSizesCommand(p) then s.idsizesIds + {p.id} else s.idsizesIds,
       sentToVm := s.sentToVm + EncodePacket(p),
       dbg := Draining(p, |s.events|))
  }

  /** An IDSizes reply that was asked for and reports success: its payload sets the spec. */
  predicate SetsSpec(s: Session, p: JdwpPacket) {
    p.ReplyPacket? && p.id in s.idsizesIds && p.errorCode == 0
  }

  function HandleVmPacket(s: Session, p: JdwpPacket, frame: bytes): Session {
    var t := if p.ReplyPacket? then s.(idsizesIds := s.idsizesIds - {p.id}) else s;
    if SetsSpec(s, p) && SpecFromReply(p.data).Err? then
      t.(closeEvent := true, vm := Done, withheld := frame)
    else
      t.(spec := if SetsSpec(s, p) then SpecFromReply(p.data).value else s.spec,
         sentToDbg := s.sentToDbg + EncodePacket(p),
         vm := Draining(p, |s.events|))
  }

  function ProxyApply(s: Session, st: ProxyStep): Session
    requires ProxyEnabled(s, st)
  {
    match st
    case DebuggerFrame(frame) =>
      var p := ParseFrame(frame).value.0;
      HandleDebuggerPacket(
        s.(readFromDbg := s.readFromDbg + frame, events := s.events + [FromDebugger(p)]), p)
    case DebuggerSent => s.(dbg := NextTurn(s))
    case DebuggerRaised => s.(dbg := Done, closeEvent := true)
    case DebuggerCancelled => s.(dbg := Done)
    case VmFrame(frame) =>
      var p := ParseFrame(frame).value.0;
      HandleVmPacket(s.(readFromVm := s.readFromVm + frame, events := s.events + [FromVm(p)]), p, frame)
    case VmSent =>
      var p := s.vm.p;
      var lookup := if p.ReplyPacket? && p.id in s.outstanding then Some(s.outstanding[p.id]) else None;
      s.(log := s.log + [LogEntry(p, s.vm.at, lookup, s.spec)],
         events := s.events + [Handled(p)],
         outstanding := if p.ReplyPacket? then s.outstanding - {p.id} else s.outstanding,
         vm := NextTurn(s))
    case VmRaised => s.(vm := Done, closeEvent := true)
    case VmCancelled => s.(vm := Done)
  }

  predicate ProxyLegal(s: Session, steps: seq<ProxyStep>)
    decreases |steps|
  {
    steps == [] || (ProxyEnabled(s, steps[0]) && ProxyLegal(ProxyApply(s, steps[0]), steps[1..]))
  }

  function ProxyRun(s: Session, steps: seq<ProxyStep>): Session
    requires ProxyLegal(s, steps)
    decreases |steps|
  {
    if steps == [] then s else ProxyRun(ProxyApply(s, steps[0]), steps[1..])
  }

  // ----- byte transparency -----

  /** The bytes of the packets taken from one peer, in order. */
  function BytesTaken(events: seq<Event>, fromVm: bool): bytes {
    if events == [] then []
    else
      var e := events[|events| - 1];
      BytesTaken(events[..|events| - 1], fromVm)
      + if (if fromVm then e.FromVm? else e.FromDebugger?) then EncodePacket(e.p) else []
  }

  /** The debugger sent an IDSizes command with this id, and the VM no reply with it since. */
  predicate AwaitsSizes(events: seq<Event>, id: nat) {
    events != [] &&
    var before, e := events[..|events| - 1], events[|events| - 1];
    if e.p.id != id then AwaitsSizes(before, id)
    else if e.FromDebugger? && IsIdSizesCommand(e.p) then true
    else if e.FromVm? && e.p.ReplyPacket? then false
    else AwaitsSizes(before, id)
  }

  /** The k-th event is a successful reply to an IDSizes command that names no supported spec. */
  predicate IsUnusable(events: seq<Event>, k: nat)
    requires k < |events|
  {
    var e := events[k];
    && e.FromVm? && e.p.ReplyPacket? && e.p.errorCode == 0
    && AwaitsSizes(events[..k], e.p.id) && SpecFromReply(e.p.data).Err?
  }

  /** `idsizes_cmd_ids`, whatever the peers do. */
  ghost predicate SizesAwaited(s: Session) {
    forall id :: id in s.idsizesIds <==> AwaitsSizes(s.events, id)
  }

  /** A frame is withheld exactly when it was an unusable answer; then the session is over. */
  ghost predicate WithheldOk(s: Session) {
    && (s.withheld != [] ==>
          exists k: nat | k < |s.events| :: IsUnusable(s.events, k) && s.withheld == EncodePacket(s.events[k].p))
    && (forall k: nat | k < |s.events| && IsUnusable(s.events, k) ::
          s.withheld == EncodePacket(s.events[k].p) && s.closeEvent && s.vm.Done?)
  }

  ghost predicate Transparent(s: Session) {
    && s.sentToVm == s.readFromDbg == BytesTaken(s.events, false)
    && s.sentToDbg + s.withheld == s.readFromVm == BytesTaken(s.events, true)
    && SizesAwaited(s) && WithheldOk(s)
  }

  lemma SnocTaken(events: seq<Event>, e: Event)
    ensures BytesTaken(events + [e], true)
            == BytesTaken(events, true) + if e.FromVm? then EncodePacket(e.p) else []
    ensures BytesTaken(events + [e], false)
            == BytesTaken(events, false) + if e.FromDebugger? then EncodePacket(e.p) else []
    ensures forall id: nat ::
              AwaitsSizes(events + [e], id)
              <==> if e.p.id != id then AwaitsSizes(events, id)
                   else if e.FromDebugger? && IsIdSizesCommand(e.p) then true
                   else if e.FromVm? && e.p.ReplyPacket? then false
                   else AwaitsSizes(events, id)
  {
    assert (events + [e])[..|events|] == events;
  }

  /** Which events are unusable answers does not depend on what follows. */
  lemma SnocUnusable(events: seq<Event>, e: Event)
    ensures forall k: nat | k < |events| :: IsUnusable(events + [e], k) <==> IsUnusable(events, k)
    ensures IsUnusable(events + [e], |events|) <==>
              e.FromVm? && e.p.ReplyPacket? && e.p.errorCode == 0
              && AwaitsSizes(events, e.p.id) && SpecFromReply(e.p.data).Err?
  {
    hide AwaitsSizes, SpecFromReply;
    var all := events + [e];
    assert all[..|events|] == events;
    forall k: nat | k < |events|
      ensures IsUnusable(all, k) <==> IsUnusable(events, k)
    {
      assert all[..k] == events[..k];
    }
  }

  /** A step that adds an event which is no unusable answer leaves nothing to withhold. */
  lemma NothingNewWithheld(s: Session, t: Session, e: Event)
    requires WithheldOk(s) && t.events == s.events + [e] && t.withheld == s.withheld
    requires s.withheld != [] ==> t.closeEvent && t.vm.Done?
    requires !IsUnusable(t.events, |s.events|)
    ensures WithheldOk(t)
  {
    hide IsUnusable, EncodePacket;
    SnocUnusable(s.events, e);
    if s.withheld != [] {
      var k: nat :| k < |s.events| && IsUnusable(s.events, k) && s.withheld == EncodePacket(s.events[k].p);
      assert IsUnusable(t.events, k);
    }
  }

  lemma EncodeOfFrame(frame: bytes)
    requires IsFrame(frame)
    ensures EncodePacket(ParseFrame(frame).value.0) == frame && frame != []
  {
    EncodeOfParse(frame);
    assert frame[..|frame|] == frame;
  }

  /** A packet that was parsed from a frame can be sent on: to_bytes does not raise. */
  lemma FrameCanBeSent(frame: bytes)
    requires IsFrame(frame)
    ensures ToBytes(ParseFrame(frame).value.0) == Ok(EncodePacket(ParseFrame(frame).value.0))
  {
    EncodeOfParse(frame);
  }

  lemma VmFrameKeepsTransparent(s: Session, frame: bytes)
    requires Transparent(s) && ProxyEnabled(s, VmFrame(frame))
    ensures Transparent(ProxyApply(s, VmFrame(frame)))
  {
    hide EncodePacket, ParseFrame, SpecFromReply, AwaitsSizes, BytesTaken, IsUnusable;
    EncodeOfFrame(frame);
    var p := ParseFrame(frame).value.0;
    var t := ProxyApply(s, VmFrame(frame));
    SnocTaken(s.events, FromVm(p));
    SnocUnusable(s.events, FromVm(p));
    assert s.withheld == [];
    if IsUnusable(t.events, |s.events|) {
      assert t.events[|s.events|] == FromVm(p);
    } else {
      NothingNewWithheld(s, t, FromVm(p));
    }
  }

  lemma StepKeepsTransparent(s: Session, st: ProxyStep)
    requires Transparent(s) && ProxyEnabled(s, st)
    ensures Transparent(ProxyApply(s, st))
  {
    hide EncodePacket, ParseFrame, SpecFromReply, AwaitsSizes, BytesTaken, IsUnusable;
    var t := ProxyApply(s, st);
    match st {
      case DebuggerFrame(frame) =>
        EncodeOfFrame(frame);
        var e := FromDebugger(ParseFrame(frame).value.0);
        SnocTaken(s.events, e);
        SnocUnusable(s.events, e);
        NothingNewWithheld(s, t, e);
      case VmFrame(frame) =>
        VmFrameKeepsTransparent(s, frame);
      case VmSent =>
        SnocTaken(s.events, Handled(s.vm.p));
        SnocUnusable(s.events, Handled(s.vm.p));
        NothingNewWithheld(s, t, Handled(s.vm.p));
      case _ =>
    }
  }

  lemma NewSessionTransparent()
    ensures Transparent(NEW_SESSION)
  {
  }

  lemma {:induction false} RunKeepsTransparent(s: Session, steps: seq<ProxyStep>)
    requires Transparent(s) && ProxyLegal(s, steps)
    ensures Transparent(ProxyRun(s, steps))
    decreases |steps|
  {
    hide Transparent, ProxyApply, ProxyEnabled;
    if steps != [] {
      StepKeepsTransparent(s, steps[0]);
      RunKeepsTransparent(ProxyApply(s, steps[0]), steps[1..]);
    }
  }

  /**
    * At every point of every run, whatever the peers do: each peer was sent, byte for byte, the packets
    * taken from the other, in order. The one exception is a last packet from the VM, which is withheld if
    * and only if it is a successful reply to an unanswered IDSizes command and names no supported spec;
    * then the session ends.
    */
  lemma ByteTransparency(steps: seq<ProxyStep>)
    requires ProxyLegal(NEW_SESSION, steps)
    ensures var s := ProxyRun(NEW_SESSION, steps);
            && s.sentToVm == s.readFromDbg == BytesTaken(s.events, false)
            && s.sentToDbg + s.withheld == s.readFromVm == BytesTaken(s.events, true)
            && (s.withheld != [] <==> exists k: nat | k < |s.events| :: IsUnusable(s.events, k))
            && (forall k: nat | k < |s.events| && IsUnusable(s.events, k) ::
                  s.withheld == EncodePacket(s.events[k].p) && s.closeEvent && s.vm.Done?)
  {
    NewSessionTransparent();
    RunKeepsTransparent(NEW_SESSION, steps);
    hide ProxyLegal, ProxyRun, IsUnusable, BytesTaken;
    var s := ProxyRun(NEW_SESSION, steps);
    forall k: nat | k < |s.events| && IsUnusable(s.events, k)
      ensures s.withheld != []
    {
      assert |EncodePacket(s.events[k].p)| > 0;
    }
  }

  lemma FrameOf(p: JdwpPacket)
    requires p.Sendable()
    ensures IsFrame(EncodePacket(p)) && ParseFrame(EncodePacket(p)).value.0 == p
  {
    ParseOfEncode(p, []);
    assert EncodePacket(p) + [] == EncodePacket(p);
  }

  /** The first step of a run, taken apart. */
  lemma ProxyRunOne(s: Session, steps: seq<ProxyStep>)
    requires steps != [] && ProxyEnabled(s, steps[0]) && ProxyLegal(ProxyApply(s, steps[0]), steps[1..])
    ensures ProxyLegal(s, steps) && ProxyRun(s, steps) == ProxyRun(ProxyApply(s, steps[0]), steps[1..])
  {
  }
}
