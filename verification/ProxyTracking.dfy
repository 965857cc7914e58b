/**
  * What the proxy's tracked ID sizes and correlation table mean, defined on the history of packets alone:
  * the sessions in which they are right, and exactly which command makes them go wrong.
  */
module ProxyTracking {
  import opened Results
  import opened Bytes
  import opened Spec
  import opened Packet
  import opened Vm
  import opened ProxySession

  /** Command set and command. */
  type Code = (int, int)

  const SIZES: Code := (1, 7)

  predicate IsCommand(e: Event, id: nat) {
    e.FromDebugger? && e.p.CommandPacket? && e.p.id == id
  }

  predicate IsReply(e: Event, id: nat) {
    e.FromVm? && e.p.ReplyPacket? && e.p.id == id
  }

  predicate IsHandling(e: Event, id: nat) {
    e.Handled? && e.p.ReplyPacket? && e.p.id == id
  }

  function Head(codes: seq<Code>): Option<Code> {
    if codes == [] then None else Some(codes[0])
  }

  function Tail(codes: seq<Code>): seq<Code> {
    if codes == [] then [] else codes[1..]
  }

  // ----- reference definitions: a reply answers the oldest unanswered command with its id -----

  /** The commands sent with this id that the VM has not answered, oldest first. */
  function Unanswered(events: seq<Event>, id: nat): seq<Code> {
    if events == [] then []
    else
      var earlier, e := Unanswered(events[..|events| - 1], id), events[|events| - 1];
      if IsCommand(e, id) then earlier + [(e.p.commandSet, e.p.command)]
      else if IsReply(e, id) then Tail(earlier)
      else earlier
  }

  /** The commands sent with this id whose reply has not been fully handled, oldest first. */
  function Unhandled(events: seq<Event>, id: nat): seq<Code> {
    if events == [] then []
    else
      var earlier, e := Unhandled(events[..|events| - 1], id), events[|events| - 1];
      if IsCommand(e, id) then earlier + [(e.p.commandSet, e.p.command)]
      else if IsHandling(e, id) then Tail(earlier)
      else earlier
  }

  /** The command that the k-th event, a reply, answers; a reply may answer none. */
  function OwnCommand(events: seq<Event>, k: nat): Option<Code>
    requires k < |events|
  {
    Head(Unanswered(events[..k], events[k].p.id))
  }

  /** A successful reply with usable ID sizes. */
  predicate HasSizes(p: JdwpPacket) {
    p.ReplyPacket? && p.errorCode == 0 && SpecFromReply(p.data).Ok?
  }

  /** The spec of the last successful answer to an IDSizes command; eight bytes everywhere before any. */
  function SpecAfter(events: seq<Event>): IdSizesSpec {
    if events == [] then DEFAULT_SPEC
    else
      var before, e := events[..|events| - 1], events[|events| - 1];
      if e.FromVm? && HasSizes(e.p) && Head(Unanswered(before, e.p.id)) == Some(SIZES)
      then SpecFromReply(e.p.data).value
      else SpecAfter(before)
  }

  lemma SnocEvent(events: seq<Event>, e: Event)
    ensures forall id: nat ::
              Unanswered(events + [e], id)
              == if IsCommand(e, id) then Unanswered(events, id) + [(e.p.commandSet, e.p.command)]
                 else if IsReply(e, id) then Tail(Unanswered(events, id))
                 else Unanswered(events, id)
    ensures forall id: nat ::
              Unhandled(events + [e], id)
              == if IsCommand(e, id) then Unhandled(events, id) + [(e.p.commandSet, e.p.command)]
                 else if IsHandling(e, id) then Tail(Unhandled(events, id))
                 else Unhandled(events, id)
    ensures SpecAfter(events + [e])
            == if e.FromVm? && HasSizes(e.p) && Head(Unanswered(events, e.p.id)) == Some(SIZES)
               then SpecFromReply(e.p.data).value
               else SpecAfter(events)
  {
    assert (events + [e])[..|events|] == events;
  }

  // ----- the two things that are tracked -----

  datatype Concern = Sizes | Correlation

  /** Loops and log refer to packets that the VM loop took. */
  ghost predicate Placed(s: Session) {
    && (s.vm.Draining? ==> 0 < s.vm.at <= |s.events| && s.events[s.vm.at - 1] == FromVm(s.vm.p))
    && (forall i | 0 <= i < |s.log| ::
          0 < s.log[i].at <= |s.events| && s.events[s.log[i].at - 1] == FromVm(s.log[i].p))
  }

  /** `idsizes_cmd_ids` holds the ids whose oldest unanswered command is IDSizes, and none hides behind another. */
  ghost predicate SizesTracked(s: Session) {
    && s.spec == SpecAfter(s.events)
    && (forall id: nat :: id in s.idsizesIds <==> Head(Unanswered(s.events, id)) == Some(SIZES))
    && (forall id: nat, i: nat | 0 < i < |Unanswered(s.events, id)| :: Unanswered(s.events, id)[i] != SIZES)
  }

  /** Each packet was, or is about to be, logged under the spec in force after it was taken. */
  ghost predicate SpecsLogged(s: Session)
    requires Placed(s)
  {
    && (s.vm.Draining? ==> SpecAfter(s.events[..s.vm.at]) == SpecAfter(s.events))
    && (forall i | 0 <= i < |s.log| :: s.log[i].spec == SpecAfter(s.events[..s.log[i].at]))
  }

  /** `outstanding_commands` is exactly the commands whose reply is not fully handled. */
  ghost predicate OutstandingTracked(s: Session) {
    forall id: nat ::
      Unhandled(s.events, id) == if id in s.outstanding then [s.outstanding[id]] else []
  }

  /** While a reply is being sent, the command it answers is the only one that is answered but not handled. */
  ghost predicate InStep(s: Session)
    requires Placed(s)
  {
    !s.vm.Done? ==>
      forall id: nat ::
        if SendsReply(s, id) then
          Unanswered(s.events, id) == [] && Head(Unhandled(s.events, id)) == OwnCommand(s.events, s.vm.at - 1)
        else Unanswered(s.events, id) == Unhandled(s.events, id)
  }

  /** The VM loop is in the send of a reply with this id. */
  predicate SendsReply(s: Session, id: nat) {
    s.vm.Draining? && s.vm.p.ReplyPacket? && s.vm.p.id == id
  }

  /** Every reply in the log was looked up as the command it answers. */
  ghost predicate LookupsOwn(s: Session)
    requires Placed(s)
  {
    forall i | 0 <= i < |s.log| && s.log[i].p.ReplyPacket? ::
      s.log[i].lookup == OwnCommand(s.events, s.log[i].at - 1)
  }

  ghost predicate Tracked(concern: Concern, s: Session) {
    && Placed(s)
    && match concern
       case Sizes => SizesTracked(s) && SpecsLogged(s)
       case Correlation => OutstandingTracked(s) && InStep(s) && LookupsOwn(s)
  }

  /**
    * What the debugger must heed. For the sizes: an IDSizes command takes no id of an unanswered command.
    * For the correlation: no command takes an id that is in the table, or whose reply is being sent.
    */
  predicate Guard(concern: Concern, s: Session, st: ProxyStep)
    requires ProxyEnabled(s, st)
  {
    st.DebuggerFrame? ==>
      var p := ParseFrame(st.frame).value.0;
      match concern
      case Sizes => IsIdSizesCommand(p) ==> Unanswered(s.events, p.id) == []
      case Correlation => p.CommandPacket? ==> p.id !in s.outstanding && !SendsReply(s, p.id)
  }

  predicate GuardedRun(concern: Concern, s: Session, steps: seq<ProxyStep>)
    requires ProxyLegal(s, steps)
    decreases |steps|
  {
    steps == [] || (Guard(concern, s, steps[0]) && GuardedRun(concern, ProxyApply(s, steps[0]), steps[1..]))
  }

  // ----- every guarded run is tracked, whatever the VM does -----

  /** Earlier prefixes of the history are prefixes of the longer one. */
  lemma PrefixesStay(events: seq<Event>, e: Event)
    ensures forall k: nat | k <= |events| :: (events + [e])[..k] == events[..k]
  {
  }

  lemma DebuggerFrameTracked(concern: Concern, s: Session, frame: bytes)
    requires Tracked(concern, s) && ProxyEnabled(s, DebuggerFrame(frame))
    requires Guard(concern, s, DebuggerFrame(frame))
    ensures Tracked(concern, ProxyApply(s, DebuggerFrame(frame)))
  {
    hide ParseFrame, SpecFromReply, EncodePacket, Unanswered, Unhandled, SpecAfter;
    var p := ParseFrame(frame).value.0;
    SnocEvent(s.events, FromDebugger(p));
    PrefixesStay(s.events, FromDebugger(p));
  }

  lemma VmFrameKeepsSizes(s: Session, frame: bytes)
    requires Tracked(Sizes, s) && ProxyEnabled(s, VmFrame(frame))
    ensures Tracked(Sizes, ProxyApply(s, VmFrame(frame)))
  {
    hide ParseFrame, SpecFromReply, EncodePacket, Unanswered, Unhandled, SpecAfter;
    var p := ParseFrame(frame).value.0;
    SnocEvent(s.events, FromVm(p));
    PrefixesStay(s.events, FromVm(p));
    assert (s.events + [FromVm(p)])[..|s.events| + 1] == s.events + [FromVm(p)];
  }

  lemma VmFrameKeepsCorrelation(s: Session, frame: bytes)
    requires Tracked(Correlation, s) && ProxyEnabled(s, VmFrame(frame))
    ensures Tracked(Correlation, ProxyApply(s, VmFrame(frame)))
  {
    hide ParseFrame, SpecFromReply, EncodePacket, Unanswered, Unhandled, SpecAfter;
    var p := ParseFrame(frame).value.0;
    SnocEvent(s.events, FromVm(p));
    PrefixesStay(s.events, FromVm(p));
    assert (s.events + [FromVm(p)])[..|s.events| + 1] == s.events + [FromVm(p)];
  }

  lemma VmSentTracked(concern: Concern, s: Session)
    requires Tracked(concern, s) && ProxyEnabled(s, VmSent)
    ensures Tracked(concern, ProxyApply(s, VmSent))
  {
    hide SpecFromReply, Unanswered, Unhandled, SpecAfter;
    SnocEvent(s.events, Handled(s.vm.p));
    PrefixesStay(s.events, Handled(s.vm.p));
  }

  lemma StepKeepsTracked(concern: Concern, s: Session, st: ProxyStep)
    requires Tracked(concern, s) && ProxyEnabled(s, st) && Guard(concern, s, st)
    ensures Tracked(concern, ProxyApply(s, st))
  {
    hide Unanswered, Unhandled, SpecAfter, Guard;
    match st {
      case DebuggerFrame(frame) => DebuggerFrameTracked(concern, s, frame);
      case VmFrame(frame) =>
        if concern.Sizes? {
          VmFrameKeepsSizes(s, frame);
        } else {
          VmFrameKeepsCorrelation(s, frame);
        }
      case VmSent => VmSentTracked(concern, s);
      case _ =>
    }
  }

  lemma {:induction false} RunKeepsTracked(concern: Concern, s: Session, steps: seq<ProxyStep>)
    requires Tracked(concern, s) && ProxyLegal(s, steps) && GuardedRun(concern, s, steps)
    ensures Tracked(concern, ProxyRun(s, steps))
    decreases |steps|
  {
    hide Tracked, ProxyApply, ProxyEnabled, Guard;
    if steps != [] {
      StepKeepsTracked(concern, s, steps[0]);
      RunKeepsTracked(concern, ProxyApply(s, steps[0]), steps[1..]);
    }
  }

  lemma NewSessionTracked(concern: Concern)
    ensures Tracked(concern, NEW_SESSION)
  {
  }

  /**
    * Every run in which no IDSizes command takes the id of an unanswered command, with any VM: the spec is
    * that of the last successful answer to an IDSizes command, `idsizes_cmd_ids` are the IDSizes commands
    * not yet answered, and every packet was logged under the spec in force after it was taken.
    */
  lemma SpecTracking(steps: seq<ProxyStep>)
    requires ProxyLegal(NEW_SESSION, steps) && GuardedRun(Sizes, NEW_SESSION, steps)
    ensures var s := ProxyRun(NEW_SESSION, steps);
            && s.spec == SpecAfter(s.events)
            && (forall id: nat :: id in s.idsizesIds <==> SIZES in Unanswered(s.events, id))
            && (forall i | 0 <= i < |s.log| ::
                  && 0 < s.log[i].at <= |s.events| && s.events[s.log[i].at - 1] == FromVm(s.log[i].p)
                  && s.log[i].spec == SpecAfter(s.events[..s.log[i].at]))
  {
    NewSessionTracked(Sizes);
    RunKeepsTracked(Sizes, NEW_SESSION, steps);
    hide ProxyRun, ProxyLegal, GuardedRun, Unanswered, SpecAfter;
  }

  /**
    * Every run in which no command takes an id that is in the table or whose reply is being sent, with any
    * VM: `outstanding_commands` is exactly the commands whose reply is not fully handled, at most one with
    * each id, and every logged reply was looked up as the command it answers, or as none.
    */
  lemma CorrelationTracking(steps: seq<ProxyStep>)
    requires ProxyLegal(NEW_SESSION, steps) && GuardedRun(Correlation, NEW_SESSION, steps)
    ensures var s := ProxyRun(NEW_SESSION, steps);
            && (forall id: nat ::
                  Unhandled(s.events, id) == if id in s.outstanding then [s.outstanding[id]] else [])
            && (forall i | 0 <= i < |s.log| && s.log[i].p.ReplyPacket? ::
                  && 0 < s.log[i].at <= |s.events| && s.events[s.log[i].at - 1] == FromVm(s.log[i].p)
                  && s.log[i].lookup == OwnCommand(s.events, s.log[i].at - 1))
  {
    NewSessionTracked(Correlation);
    RunKeepsTracked(Correlation, NEW_SESSION, steps);
    hide ProxyRun, ProxyLegal, GuardedRun, Unanswered, Unhandled;
  }

  // ----- debuggers that never reuse an id -----

  predicate Used(events: seq<Event>, id: nat) {
    exists i | 0 <= i < |events| :: IsCommand(events[i], id)
  }

  /** The protocol's rule: the debugger uses no id twice, and the VM replies only to what it was sent. */
  predicate Honest(s: Session, st: ProxyStep)
    requires ProxyEnabled(s, st)
  {
    match st
    case DebuggerFrame(frame) =>
      var p := ParseFrame(frame).value.0;
      p.CommandPacket? ==> !Used(s.events, p.id)
    case VmFrame(frame) =>
      var p := ParseFrame(frame).value.0;
      p.ReplyPacket? ==> Used(s.events, p.id)
    case _ => true
  }

  predicate HonestRun(s: Session, steps: seq<ProxyStep>)
    requires ProxyLegal(s, steps)
    decreases |steps|
  {
    steps == [] || (Honest(s, steps[0]) && HonestRun(ProxyApply(s, steps[0]), steps[1..]))
  }

  lemma SnocUsed(events: seq<Event>, e: Event)
    ensures forall id: nat :: Used(events + [e], id) <==> Used(events, id) || IsCommand(e, id)
  {
    var all := events + [e];
    forall id: nat
      ensures Used(all, id) <==> Used(events, id) || IsCommand(e, id)
    {
      if Used(events, id) {
        var i :| 0 <= i < |events| && IsCommand(events[i], id);
        assert all[i] == events[i];
      }
      if IsCommand(e, id) {
        assert all[|events|] == e;
      }
    }
  }

  lemma {:induction false} UnusedIsQuiet(events: seq<Event>, id: nat)
    requires !Used(events, id)
    ensures Unanswered(events, id) == [] && Unhandled(events, id) == []
  {
    if events != [] {
      var before, e := events[..|events| - 1], events[|events| - 1];
      assert events == before + [e];
      SnocUsed(before, e);
      UnusedIsQuiet(before, id);
    }
  }

  lemma HonestStepIsGuarded(concern: Concern, s: Session, st: ProxyStep)
    requires Tracked(concern, s) && ProxyEnabled(s, st) && Honest(s, st)
    requires s.vm.Draining? && s.vm.p.ReplyPacket? ==> Used(s.events, s.vm.p.id)
    ensures Guard(concern, s, st)
    ensures var t := ProxyApply(s, st); t.vm.Draining? && t.vm.p.ReplyPacket? ==> Used(t.events, t.vm.p.id)
  {
    hide ParseFrame, EncodePacket, SpecFromReply, Unanswered, Unhandled, SpecAfter, Used;
    match st {
      case DebuggerFrame(frame) =>
        var p := ParseFrame(frame).value.0;
        SnocUsed(s.events, FromDebugger(p));
        if p.CommandPacket? {
          UnusedIsQuiet(s.events, p.id);
        }
      case VmFrame(frame) =>
        SnocUsed(s.events, FromVm(ParseFrame(frame).value.0));
      case _ =>
    }
  }

  /** Both guards hold along every honest run, so that everything above applies to it. */
  lemma {:induction false} HonestIsGuarded(concern: Concern, s: Session, steps: seq<ProxyStep>)
    requires Tracked(concern, s) && ProxyLegal(s, steps) && HonestRun(s, steps)
    requires s.vm.Draining? && s.vm.p.ReplyPacket? ==> Used(s.events, s.vm.p.id)
    ensures GuardedRun(concern, s, steps)
    decreases |steps|
  {
    hide Tracked, ProxyApply, ProxyEnabled, Guard, Honest, Used;
    if steps != [] {
      HonestStepIsGuarded(concern, s, steps[0]);
      StepKeepsTracked(concern, s, steps[0]);
      HonestIsGuarded(concern, ProxyApply(s, steps[0]), steps[1..]);
    }
  }
}
