/** How a proxy session ends, and that it logs every packet from the VM once and in order (proxy.py). */
module ProxyOutcomes {
  import opened Results
  import opened Bytes
  import opened Packet
  import opened Vm
  import opened ProxySession

  // ----- the end of a session -----

  /** A loop leaves its `try` through `except Exception`. */
  predicate IsRaise(st: ProxyStep) {
    st.DebuggerRaised? || st.VmRaised?
  }

  function Frames(steps: seq<ProxyStep>, fromVm: bool): nat {
    if steps == [] then 0
    else
      (if (if fromVm then steps[0].VmFrame? else steps[0].DebuggerFrame?) then 1 else 0) + Frames(steps[1..], fromVm)
  }

  lemma CloseEventStep(s: Session, st: ProxyStep)
    requires ProxyEnabled(s, st)
    ensures var t := ProxyApply(s, st);
            && (s.closeEvent || IsRaise(st) ==> t.closeEvent)
            && (st.DebuggerRaised? || s.dbg.Done? ==> t.dbg.Done?)
            && (st.VmRaised? || s.vm.Done? ==> t.vm.Done?)
            && (s.closeEvent ==> (t.dbg.Receiving? ==> s.dbg.Receiving?) && (t.vm.Receiving? ==> s.vm.Receiving?))
            && (st.DebuggerFrame? ==> s.dbg.Receiving? && !t.dbg.Receiving?)
            && (st.VmFrame? ==> s.vm.Receiving? && !t.vm.Receiving?)
  {
    hide ParseFrame, EncodePacket, SpecFromReply;
  }

  /**
    * Once the close event is set it stays set, and each loop takes at most one more frame: the one it may be
    * waiting for.
    */
  lemma {:induction false} ClosingSession(s: Session, steps: seq<ProxyStep>)
    requires s.closeEvent && ProxyLegal(s, steps)
    ensures ProxyRun(s, steps).closeEvent
    ensures s.dbg.Done? ==> ProxyRun(s, steps).dbg.Done?
    ensures s.vm.Done? ==> ProxyRun(s, steps).vm.Done?
    ensures Frames(steps, false) <= if s.dbg.Receiving? then 1 else 0
    ensures Frames(steps, true) <= if s.vm.Receiving? then 1 else 0
    decreases |steps|
  {
    hide ProxyApply, ProxyEnabled;
    if steps != [] {
      CloseEventStep(s, steps[0]);
      ClosingSession(ProxyApply(s, steps[0]), steps[1..]);
    }
  }

  /** A peer that disconnects, or any other failure of a loop, ends that loop and closes the session for good. */
  lemma FailureClosesSession(s: Session, st: ProxyStep, steps: seq<ProxyStep>)
    requires ProxyEnabled(s, st) && IsRaise(st) && ProxyLegal(ProxyApply(s, st), steps)
    ensures var t := ProxyRun(ProxyApply(s, st), steps);
            && t.closeEvent
            && (st.DebuggerRaised? ==> t.dbg.Done? && Frames(steps, false) == 0 && Frames(steps, true) <= 1)
            && (st.VmRaised? ==> t.vm.Done? && Frames(steps, true) == 0 && Frames(steps, false) <= 1)
  {
    CloseEventStep(s, st);
    hide ProxyApply, ProxyEnabled, ProxyLegal, ProxyRun;
    ClosingSession(ProxyApply(s, st), steps);
  }

  /** A loop that still runs can fail at any time, and one that receives takes any frame. */
  lemma LoopsAreOpen(s: Session, frame: bytes)
    ensures !s.dbg.Done? ==> ProxyEnabled(s, DebuggerRaised)
    ensures !s.vm.Done? ==> ProxyEnabled(s, VmRaised)
    ensures s.dbg.Receiving? && IsFrame(frame) ==> ProxyEnabled(s, DebuggerFrame(frame))
    ensures s.vm.Receiving? && IsFrame(frame) ==> ProxyEnabled(s, VmFrame(frame))
  {
    hide IsFrame;
  }

  /** After a completed send a loop takes its next turn if and only if the close event is not set. */
  lemma NextTurnCondition(s: Session)
    ensures s.dbg.Draining? ==>
              var t := ProxyApply(s, DebuggerSent); if s.closeEvent then t.dbg.Done? else t.dbg.Receiving?
    ensures s.vm.Draining? ==>
              var t := ProxyApply(s, VmSent); if s.closeEvent then t.vm.Done? else t.vm.Receiving?
  {
  }

  lemma WithheldStep(s: Session, st: ProxyStep)
    requires Transparent(s) && ProxyEnabled(s, st)
    ensures var t := ProxyApply(s, st);
            && (s.withheld != [] ==> t.withheld == s.withheld)
            && (t.closeEvent <==> s.closeEvent || IsRaise(st) || t.withheld != [])
  {
    hide ParseFrame, EncodePacket, SpecFromReply, IsUnusable, AwaitsSizes, BytesTaken;
    if st.VmFrame? {
      EncodeOfFrame(st.frame);
    }
    if s.withheld != [] {
      var k: nat :| k < |s.events| && IsUnusable(s.events, k) && s.withheld == EncodePacket(s.events[k].p);
    }
  }

  predicate HasRaise(steps: seq<ProxyStep>) {
    exists st | st in steps :: IsRaise(st)
  }

  /** Exactly what closes a session: a loop that raises, or an unusable IDSizes reply. */
  lemma {:induction false} CloseCondition(s: Session, steps: seq<ProxyStep>)
    requires Transparent(s) && ProxyLegal(s, steps)
    ensures var t := ProxyRun(s, steps);
            && (s.withheld != [] ==> t.withheld == s.withheld)
            && (t.closeEvent <==> s.closeEvent || HasRaise(steps) || t.withheld != [])
    decreases |steps|
  {
    hide ProxyApply, ProxyEnabled, Transparent;
    if steps == [] {
      WithheldCloses(s);
    } else {
      WithheldStep(s, steps[0]);
      StepKeepsTransparent(s, steps[0]);
      CloseCondition(ProxyApply(s, steps[0]), steps[1..]);
      assert steps == [steps[0]] + steps[1..];
      assert HasRaise(steps) <==> IsRaise(steps[0]) || HasRaise(steps[1..]);
    }
  }

  lemma WithheldCloses(s: Session)
    requires Transparent(s)
    ensures s.withheld != [] ==> s.closeEvent
  {
    hide IsUnusable, AwaitsSizes, BytesTaken, EncodePacket;
    if s.withheld != [] {
      var k: nat :| k < |s.events| && IsUnusable(s.events, k) && s.withheld == EncodePacket(s.events[k].p);
    }
  }

  // ----- the log -----

  function TakenFromVm(events: seq<Event>): seq<JdwpPacket> {
    if events == [] then []
    else
      var e := events[|events| - 1];
      TakenFromVm(events[..|events| - 1]) + if e.FromVm? then [e.p] else []
  }

  function HandledPackets(events: seq<Event>): seq<JdwpPacket> {
    if events == [] then []
    else
      var e := events[|events| - 1];
      HandledPackets(events[..|events| - 1]) + if e.Handled? then [e.p] else []
  }

  function LoggedPackets(log: seq<LogEntry>): seq<JdwpPacket> {
    seq(|log|, i requires 0 <= i < |log| => log[i].p)
  }

  /** Packets from the VM are logged once each and in order; at most the last one is not logged yet. */
  ghost predicate LogOk(s: Session) {
    && LoggedPackets(s.log) == HandledPackets(s.events)
    && match s.vm
       case Receiving => TakenFromVm(s.events) == LoggedPackets(s.log)
       case Draining(p, _) => TakenFromVm(s.events) == LoggedPackets(s.log) + [p]
       case Done =>
         || TakenFromVm(s.events) == LoggedPackets(s.log)
         || exists p :: TakenFromVm(s.events) == LoggedPackets(s.log) + [p]
  }

  lemma SnocPackets(events: seq<Event>, e: Event)
    ensures TakenFromVm(events + [e]) == TakenFromVm(events) + if e.FromVm? then [e.p] else []
    ensures HandledPackets(events + [e]) == HandledPackets(events) + if e.Handled? then [e.p] else []
  {
    assert (events + [e])[..|events|] == events;
  }

  lemma StepKeepsLog(s: Session, st: ProxyStep)
    requires LogOk(s) && ProxyEnabled(s, st)
    ensures LogOk(ProxyApply(s, st))
  {
    hide ParseFrame, EncodePacket, SpecFromReply, TakenFromVm, HandledPackets;
    var t := ProxyApply(s, st);
    match st {
      case DebuggerFrame(frame) => SnocPackets(s.events, FromDebugger(ParseFrame(frame).value.0));
      case VmFrame(frame) =>
        SnocPackets(s.events, FromVm(ParseFrame(frame).value.0));
      case VmSent =>
        SnocPackets(s.events, Handled(s.vm.p));
        assert LoggedPackets(t.log) == LoggedPackets(s.log) + [s.vm.p];
      case _ =>
    }
  }

  lemma {:induction false} RunKeepsLog(s: Session, steps: seq<ProxyStep>)
    requires LogOk(s) && ProxyLegal(s, steps)
    ensures LogOk(ProxyRun(s, steps))
    decreases |steps|
  {
    hide LogOk, ProxyApply, ProxyEnabled;
    if steps != [] {
      StepKeepsLog(s, steps[0]);
      RunKeepsLog(ProxyApply(s, steps[0]), steps[1..]);
    }
  }

  /** After every run the log holds the packets taken from the VM, in order, but for at most the last one. */
  lemma LogIsComplete(steps: seq<ProxyStep>)
    requires ProxyLegal(NEW_SESSION, steps)
    ensures var s := ProxyRun(NEW_SESSION, steps);
            && LoggedPackets(s.log) <= TakenFromVm(s.events)
            && |TakenFromVm(s.events)| <= |s.log| + 1
            && (s.vm.Receiving? ==> LoggedPackets(s.log) == TakenFromVm(s.events))
  {
    assert LogOk(NEW_SESSION);
    RunKeepsLog(NEW_SESSION, steps);
    hide ProxyLegal, ProxyRun, TakenFromVm, HandledPackets;
  }
}
