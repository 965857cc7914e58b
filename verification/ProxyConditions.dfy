/** Exactly which packets make the proxy's tracking go wrong, and the shortest sessions in which they do. */
module ProxyConditions {
  import opened Results
  import opened Bytes
  import opened Spec
  import opened Packet
  import opened Vm
  import opened ProxySession
  import opened ProxyTracking

  // ----- the guards are exact -----

  /** The VM loop still takes frames. */
  predicate Alive(s: Session) {
    !s.vm.Done? && !s.closeEvent
  }

  function SizesReply(id: nat, spec: IdSizesSpec): JdwpPacket {
    ReplyPacket(id, 128, EncodeIdSizes(ResponseOfSpec(spec)), 0)
  }

  function ErrorReply(id: nat): JdwpPacket {
    ReplyPacket(id, 128, [], 1)
  }

  lemma RepliesSendable(id: nat, spec: IdSizesSpec)
    requires FitsUnsigned(4, id)
    ensures SizesReply(id, spec).Sendable() && SizesReply(id, spec).data != [] && ErrorReply(id).Sendable()
  {
    assert Pow256(1) == 256 && Pow256(2) == 0x1_0000 && Pow256(4) == 0x1_0000_0000;
    hide EncodeIdSizes, Pow256;
    assert |EncodeIdSizes(ResponseOfSpec(spec))| == 20 by { IdSizesLength(ResponseOfSpec(spec)); }
  }

  lemma IdSizesLength(r: IdSizesResponse)
    ensures |EncodeIdSizes(r)| == 20
  {
  }

  lemma RepliesAreFrames(id: nat, spec: IdSizesSpec)
    requires FitsUnsigned(4, id)
    ensures var p := SizesReply(id, spec);
            && IsFrame(EncodePacket(p)) && ParseFrame(EncodePacket(p)).value.0 == p
            && SpecFromReply(p.data) == Ok(spec) && p.data != []
    ensures var p := ErrorReply(id);
            IsFrame(EncodePacket(p)) && ParseFrame(EncodePacket(p)).value.0 == p
  {
    hide SpecFromReply, ParseFrame, EncodePacket, EncodeIdSizes, FitsUnsigned;
    SpecRoundTrip(spec, []);
    var data := EncodeIdSizes(ResponseOfSpec(spec));
    assert data + [] == data;
    RepliesSendable(id, spec);
    FrameOf(SizesReply(id, spec));
    FrameOf(ErrorReply(id));
  }

  /** A step of the VM loop, prepended to a run in which the debugger heeds the guard. */
  lemma PrependVmStep(concern: Concern, s: Session, steps: seq<ProxyStep>)
    requires steps != [] && !steps[0].DebuggerFrame? && ProxyEnabled(s, steps[0])
    requires ProxyLegal(ProxyApply(s, steps[0]), steps[1..])
    requires GuardedRun(concern, ProxyApply(s, steps[0]), steps[1..])
    ensures ProxyLegal(s, steps) && GuardedRun(concern, s, steps)
    ensures ProxyRun(s, steps) == ProxyRun(ProxyApply(s, steps[0]), steps[1..])
  {
    ProxyRunOne(s, steps);
  }

  function OtherSpec(spec: IdSizesSpec): (other: IdSizesSpec)
    ensures other != spec
  {
    if spec == DEFAULT_SPEC then IdSizesSpec(4, 4, 4, 4, 4) else DEFAULT_SPEC
  }

  /** The VM answers i commands with an error and then the IDSizes command behind them with new sizes. */
  function LostSizesRun(spec: IdSizesSpec, id: nat, i: nat): seq<ProxyStep> {
    if i == 0 then [VmFrame(EncodePacket(SizesReply(id, OtherSpec(spec))))]
    else [VmFrame(EncodePacket(ErrorReply(id))), VmSent] + LostSizesRun(spec, id, i - 1)
  }

  lemma {:induction false} LostSizes(s: Session, id: nat, i: nat)
    requires s.vm.Receiving? && !s.closeEvent && FitsUnsigned(4, id)
    requires i < |Unanswered(s.events, id)| && Unanswered(s.events, id)[i] == SIZES
    requires i == 0 ==> id !in s.idsizesIds
    ensures ProxyLegal(s, LostSizesRun(s.spec, id, i)) && GuardedRun(Sizes, s, LostSizesRun(s.spec, id, i))
    ensures var t := ProxyRun(s, LostSizesRun(s.spec, id, i)); t.spec != SpecAfter(t.events)
    decreases i
  {
    hide ParseFrame, SpecFromReply, EncodePacket, Unanswered, SpecAfter, EncodeIdSizes, FitsUnsigned;
    RepliesAreFrames(id, OtherSpec(s.spec));
    var steps := LostSizesRun(s.spec, id, i);
    var s1 := ProxyApply(s, steps[0]);
    if i == 0 {
      SnocEvent(s.events, FromVm(SizesReply(id, OtherSpec(s.spec))));
      assert steps[1..] == [];
    } else {
      SnocEvent(s.events, FromVm(ErrorReply(id)));
      var s2 := ProxyApply(s1, VmSent);
      SnocEvent(s1.events, Handled(ErrorReply(id)));
      LostSizes(s2, id, i - 1);
      assert steps[1..][0] == VmSent && steps[1..][1..] == LostSizesRun(s.spec, id, i - 1);
      PrependVmStep(Sizes, s1, steps[1..]);
    }
    PrependVmStep(Sizes, s, steps);
  }

  /** The VM loop finishes the send it is in. */
  function Drain(s: Session): seq<ProxyStep> {
    if s.vm.Draining? then [VmSent] else []
  }

  /** How an IDSizes command behind other commands with its id loses its answer. */
  function BadSizesRun(t: Session, id: nat): seq<ProxyStep>
    requires Unanswered(t.events, id) != []
  {
    Drain(t) + LostSizesRun(t.spec, id, |Unanswered(t.events, id)| - 1)
  }

  /** What the end of a send leaves as it is. */
  lemma AfterDrain(t: Session, id: nat)
    requires t.vm.Draining? && !t.closeEvent
    ensures var u := ProxyApply(t, VmSent);
            && u.vm.Receiving? && !u.closeEvent && u.spec == t.spec && u.idsizesIds == t.idsizesIds
            && Unanswered(u.events, id) == Unanswered(t.events, id)
            && (id in u.outstanding ==> id in t.outstanding && !SendsReply(t, id))
  {
    hide Unanswered, Unhandled, SpecAfter;
    SnocEvent(t.events, Handled(t.vm.p));
  }

  lemma SizesBehindAreLost(t: Session, id: nat)
    requires Alive(t) && FitsUnsigned(4, id)
    requires var u := Unanswered(t.events, id); |u| >= 2 && u[|u| - 1] == SIZES
    ensures ProxyLegal(t, BadSizesRun(t, id)) && GuardedRun(Sizes, t, BadSizesRun(t, id))
    ensures ProxyRun(t, BadSizesRun(t, id)).spec != SpecAfter(ProxyRun(t, BadSizesRun(t, id)).events)
  {
    hide Unanswered, SpecAfter, FitsUnsigned, LostSizesRun, SpecFromReply, ParseFrame, HasSizes;
    var i := |Unanswered(t.events, id)| - 1;
    if t.vm.Draining? {
      AfterDrain(t, id);
      hide ProxyApply;
      LostSizes(ProxyApply(t, VmSent), id, i);
      var steps := BadSizesRun(t, id);
      assert steps[0] == VmSent && steps[1..] == LostSizesRun(t.spec, id, i);
      PrependVmStep(Sizes, t, steps);
    } else {
      LostSizes(t, id, i);
      assert BadSizesRun(t, id) == LostSizesRun(t.spec, id, i);
    }
  }

  lemma UnguardedSizes(s: Session, frame: bytes)
    requires ProxyEnabled(s, DebuggerFrame(frame)) && Alive(s) && !Guard(Sizes, s, DebuggerFrame(frame))
    ensures var t := ProxyApply(s, DebuggerFrame(frame));
            var id := ParseFrame(frame).value.0.id;
            && Unanswered(t.events, id) != []
            && ProxyLegal(t, BadSizesRun(t, id)) && GuardedRun(Sizes, t, BadSizesRun(t, id))
            && ProxyRun(t, BadSizesRun(t, id)).spec != SpecAfter(ProxyRun(t, BadSizesRun(t, id)).events)
  {
    EncodeOfParse(frame);
    hide ParseFrame, EncodePacket, Unanswered, Unhandled, SpecAfter, FitsUnsigned;
    var p := ParseFrame(frame).value.0;
    SnocEvent(s.events, FromDebugger(p));
    SizesBehindAreLost(ProxyApply(s, DebuggerFrame(frame)), p.id);
  }

  /**
    * The guard for the sizes is exact: after a debugger packet the spec stays right in every continuation in
    * which the guard is heeded, if and only if the guard was heeded for that packet.
    */
  lemma SizesCondition(s: Session, frame: bytes)
    requires Tracked(Sizes, s) && ProxyEnabled(s, DebuggerFrame(frame)) && Alive(s)
    ensures var t := ProxyApply(s, DebuggerFrame(frame));
            Guard(Sizes, s, DebuggerFrame(frame))
            <==> forall steps | ProxyLegal(t, steps) && GuardedRun(Sizes, t, steps) ::
                   ProxyRun(t, steps).spec == SpecAfter(ProxyRun(t, steps).events)
  {
    hide ProxyLegal, ProxyRun, GuardedRun, Guard, ParseFrame, SpecAfter, Unanswered, ProxyApply;
    var t := ProxyApply(s, DebuggerFrame(frame));
    if Guard(Sizes, s, DebuggerFrame(frame)) {
      StepKeepsTracked(Sizes, s, DebuggerFrame(frame));
      forall steps | ProxyLegal(t, steps) && GuardedRun(Sizes, t, steps)
        ensures ProxyRun(t, steps).spec == SpecAfter(ProxyRun(t, steps).events)
      {
        RunKeepsTracked(Sizes, t, steps);
      }
    } else {
      UnguardedSizes(s, frame);
    }
  }

  /** _format_parsed_reply uses the lookup: the reply reports success and has a payload. */
  predicate IsFormatted(p: JdwpPacket) {
    p.ReplyPacket? && p.errorCode == 0 && p.data != []
  }

  /** Some reply was formatted as the answer to another command than its own, or not at all. */
  ghost predicate Misread(s: Session) {
    exists i | 0 <= i < |s.log| ::
      && IsFormatted(s.log[i].p) && 0 < s.log[i].at <= |s.events|
      && s.log[i].lookup != OwnCommand(s.events, s.log[i].at - 1)
  }

  /** The VM answers a command with this id. */
  function Answer(id: nat): seq<ProxyStep> {
    [VmFrame(EncodePacket(SizesReply(id, DEFAULT_SPEC))), VmSent]
  }

  lemma AnswerIsEnabled(s: Session, id: nat)
    requires s.vm.Receiving? && FitsUnsigned(4, id)
    ensures ProxyEnabled(s, Answer(id)[0]) && ProxyEnabled(ProxyApply(s, Answer(id)[0]), VmSent)
  {
    hide ParseFrame, SpecFromReply, EncodePacket, EncodeIdSizes, FitsUnsigned;
    RepliesAreFrames(id, DEFAULT_SPEC);
  }

  function AfterAnswer(s: Session, id: nat): Session
    requires s.vm.Receiving? && FitsUnsigned(4, id)
  {
    AnswerIsEnabled(s, id);
    ProxyApply(ProxyApply(s, Answer(id)[0]), VmSent)
  }

  lemma AnswerTakesOne(s: Session, id: nat)
    requires s.vm.Receiving? && !s.closeEvent && FitsUnsigned(4, id)
    ensures var t := AfterAnswer(s, id);
            && t.vm.Receiving? && !t.closeEvent && id !in t.outstanding
            && Unanswered(t.events, id) == Tail(Unanswered(s.events, id))
            && |t.log| == |s.log| + 1 && IsFormatted(t.log[|s.log|].p)
            && t.log[|s.log|].at == |s.events| + 1 && |t.events| == |s.events| + 2
            && t.log[|s.log|].lookup == (if id in s.outstanding then Some(s.outstanding[id]) else None)
            && OwnCommand(t.events, |s.events|) == Head(Unanswered(s.events, id))
  {
    hide ParseFrame, SpecFromReply, EncodePacket, Unanswered, EncodeIdSizes, FitsUnsigned;
    RepliesAreFrames(id, DEFAULT_SPEC);
    var p := SizesReply(id, DEFAULT_SPEC);
    var s1 := ProxyApply(s, Answer(id)[0]);
    SnocEvent(s.events, FromVm(p));
    SnocEvent(s1.events, Handled(p));
    assert (s.events + [FromVm(p)] + [Handled(p)])[..|s.events|] == s.events;
  }

  lemma PrependAnswer(s: Session, id: nat, steps: seq<ProxyStep>)
    requires s.vm.Receiving? && !s.closeEvent && FitsUnsigned(4, id)
    requires ProxyLegal(AfterAnswer(s, id), steps) && GuardedRun(Correlation, AfterAnswer(s, id), steps)
    ensures ProxyLegal(s, Answer(id) + steps) && GuardedRun(Correlation, s, Answer(id) + steps)
    ensures ProxyRun(s, Answer(id) + steps) == ProxyRun(AfterAnswer(s, id), steps)
  {
    hide ParseFrame, SpecFromReply, EncodePacket, EncodeIdSizes, FitsUnsigned;
    RepliesAreFrames(id, DEFAULT_SPEC);
    var all := Answer(id) + steps;
    var s1 := ProxyApply(s, all[0]);
    assert all[1..][0] == VmSent && all[1..][1..] == steps;
    PrependVmStep(Correlation, s1, all[1..]);
    PrependVmStep(Correlation, s, all);
  }

  /** A command without a table entry: its answer is formatted without it. */
  lemma LostEntry(s: Session, id: nat)
    requires s.vm.Receiving? && !s.closeEvent && FitsUnsigned(4, id)
    requires id !in s.outstanding && Unanswered(s.events, id) != []
    ensures ProxyLegal(s, Answer(id)) && GuardedRun(Correlation, s, Answer(id))
    ensures Misread(ProxyRun(s, Answer(id)))
  {
    hide Unanswered, AfterAnswer, IsFormatted, FitsUnsigned;
    AnswerTakesOne(s, id);
    assert Answer(id) + [] == Answer(id);
    PrependAnswer(s, id, []);
    assert ProxyRun(s, Answer(id)) == AfterAnswer(s, id);
  }

  /** How a command whose id is still in use is misread. */
  function MisreadRun(t: Session, id: nat): seq<ProxyStep> {
    Drain(t) + (if SendsReply(t, id) then Answer(id) else Answer(id) + Answer(id))
  }

  lemma TwoUnansweredMisread(s: Session, id: nat)
    requires s.vm.Receiving? && !s.closeEvent && FitsUnsigned(4, id) && |Unanswered(s.events, id)| >= 2
    ensures ProxyLegal(s, Answer(id) + Answer(id)) && GuardedRun(Correlation, s, Answer(id) + Answer(id))
    ensures Misread(ProxyRun(s, Answer(id) + Answer(id)))
  {
    hide Unanswered, AfterAnswer, IsFormatted, FitsUnsigned, Answer, ProxyLegal, GuardedRun, ProxyRun, Misread;
    AnswerTakesOne(s, id);
    LostEntry(AfterAnswer(s, id), id);
    PrependAnswer(s, id, Answer(id));
  }

  lemma ReuseIsMisread(t: Session, id: nat)
    requires Alive(t) && FitsUnsigned(4, id)
    requires if SendsReply(t, id) then Unanswered(t.events, id) != [] else |Unanswered(t.events, id)| >= 2
    ensures ProxyLegal(t, MisreadRun(t, id)) && GuardedRun(Correlation, t, MisreadRun(t, id))
    ensures Misread(ProxyRun(t, MisreadRun(t, id)))
  {
    hide Unanswered, FitsUnsigned, Answer, Misread;
    var rest := if SendsReply(t, id) then Answer(id) else Answer(id) + Answer(id);
    if t.vm.Draining? {
      var u := ProxyApply(t, VmSent);
      AfterDrain(t, id);
      if SendsReply(t, id) {
        LostEntry(u, id);
      } else {
        TwoUnansweredMisread(u, id);
      }
      var steps := MisreadRun(t, id);
      assert steps[0] == VmSent && steps[1..] == rest;
      PrependVmStep(Correlation, t, steps);
    } else {
      TwoUnansweredMisread(t, id);
      assert MisreadRun(t, id) == rest;
    }
  }

  lemma UnguardedCorrelation(s: Session, frame: bytes)
    requires Tracked(Correlation, s) && ProxyEnabled(s, DebuggerFrame(frame)) && Alive(s)
    requires !Guard(Correlation, s, DebuggerFrame(frame))
    ensures var t := ProxyApply(s, DebuggerFrame(frame));
            var id := ParseFrame(frame).value.0.id;
            && ProxyLegal(t, MisreadRun(t, id)) && GuardedRun(Correlation, t, MisreadRun(t, id))
            && Misread(ProxyRun(t, MisreadRun(t, id)))
  {
    EncodeOfParse(frame);
    hide ParseFrame, EncodePacket, Unanswered, Unhandled, SpecAfter, FitsUnsigned, LookupsOwn, OwnCommand;
    var p := ParseFrame(frame).value.0;
    SnocEvent(s.events, FromDebugger(p));
    ReuseIsMisread(ProxyApply(s, DebuggerFrame(frame)), p.id);
  }

  /**
    * The guard for the correlation is exact: after a debugger packet no reply is misread in any continuation
    * in which the guard is heeded, if and only if the guard was heeded for that packet.
    */
  lemma CorrelationCondition(s: Session, frame: bytes)
    requires Tracked(Correlation, s) && ProxyEnabled(s, DebuggerFrame(frame)) && Alive(s)
    ensures var t := ProxyApply(s, DebuggerFrame(frame));
            Guard(Correlation, s, DebuggerFrame(frame))
            <==> forall steps | ProxyLegal(t, steps) && GuardedRun(Correlation, t, steps) ::
                   !Misread(ProxyRun(t, steps))
  {
    hide ProxyLegal, ProxyRun, GuardedRun, Guard, ParseFrame, OwnCommand, ProxyApply, IsFormatted;
    var t := ProxyApply(s, DebuggerFrame(frame));
    if Guard(Correlation, s, DebuggerFrame(frame)) {
      StepKeepsTracked(Correlation, s, DebuggerFrame(frame));
      forall steps | ProxyLegal(t, steps) && GuardedRun(Correlation, t, steps)
        ensures !Misread(ProxyRun(t, steps))
      {
        RunKeepsTracked(Correlation, t, steps);
        FormattedAreReplies();
      }
    } else {
      UnguardedCorrelation(s, frame);
    }
  }

  lemma FormattedAreReplies()
    ensures forall p | IsFormatted(p) :: p.ReplyPacket?
  {
  }

  /** A reply that carries no tracked sizes goes through the VM loop. */
  lemma ReplyPasses(s: Session, p: JdwpPacket, rest: seq<ProxyStep>)
    requires s.vm.Receiving? && !s.closeEvent
    requires p.ReplyPacket? && p.Sendable() && p.id !in s.idsizesIds
    ensures var st := VmFrame(EncodePacket(p));
            && ProxyEnabled(s, st) && ProxyEnabled(ProxyApply(s, st), VmSent)
            && var t := ProxyApply(ProxyApply(s, st), VmSent);
               && t.vm.Receiving? && !t.closeEvent && t.idsizesIds == s.idsizesIds && t.spec == s.spec
               && t.outstanding == s.outstanding - {p.id}
               && t.events == s.events + [FromVm(p)] + [Handled(p)]
               && t.log == s.log + [LogEntry(p, |s.events| + 1,
                    if p.id in s.outstanding then Some(s.outstanding[p.id]) else None, s.spec)]
               && (ProxyLegal(t, rest) ==>
                     ProxyLegal(s, [st, VmSent] + rest) && ProxyRun(s, [st, VmSent] + rest) == ProxyRun(t, rest))
  {
    hide ParseFrame, EncodePacket, SpecFromReply;
    FrameOf(p);
    var st := VmFrame(EncodePacket(p));
    var s1 := ProxyApply(s, st);
    var steps := [st, VmSent] + rest;
    assert steps[1..][0] == VmSent && steps[1..][1..] == rest;
    if ProxyLegal(ProxyApply(s1, VmSent), rest) {
      ProxyRunOne(s1, steps[1..]);
      ProxyRunOne(s, steps);
    }
  }

  /** Two commands with one id go through the debugger loop. */
  lemma CommandsPass(s: Session, first: JdwpPacket, second: JdwpPacket, rest: seq<ProxyStep>)
    requires s.dbg.Receiving? && !s.closeEvent
    requires first.CommandPacket? && first.Sendable() && !IsIdSizesCommand(first)
    requires second.CommandPacket? && second.Sendable() && !IsIdSizesCommand(second)
    requires first.id == second.id
    ensures var steps := [DebuggerFrame(EncodePacket(first)), DebuggerSent, DebuggerFrame(EncodePacket(second))];
            && ProxyLegal(s, steps)
            && var t := ProxyRun(s, steps);
               && t.vm == s.vm && !t.closeEvent && t.idsizesIds == s.idsizesIds && t.spec == s.spec && t.log == s.log
               && second.id in t.outstanding && t.outstanding[second.id] == (second.commandSet, second.command)
               && t.events == s.events + [FromDebugger(first)] + [FromDebugger(second)]
               && (ProxyLegal(t, rest) ==>
                     ProxyLegal(s, steps + rest) && ProxyRun(s, steps + rest) == ProxyRun(t, rest))
  {
    hide ParseFrame, EncodePacket;
    FrameOf(first);
    FrameOf(second);
    var steps := [DebuggerFrame(EncodePacket(first)), DebuggerSent, DebuggerFrame(EncodePacket(second))];
    var s1 := ProxyApply(s, steps[0]);
    var s2 := ProxyApply(s1, steps[1]);
    assert steps[1..][0] == DebuggerSent && steps[1..][1..] == [steps[2]];
    ProxyRunOne(s2, [steps[2]]);
    ProxyRunOne(s1, steps[1..]);
    ProxyRunOne(s, steps);
    RunsCompose(s, steps, rest);
  }

  lemma {:induction false} RunsCompose(s: Session, a: seq<ProxyStep>, b: seq<ProxyStep>)
    requires ProxyLegal(s, a)
    ensures ProxyLegal(ProxyRun(s, a), b) ==>
              ProxyLegal(s, a + b) && ProxyRun(s, a + b) == ProxyRun(ProxyRun(s, a), b)
    decreases |a|
  {
    hide ProxyApply, ProxyEnabled;
    if a == [] {
      assert a + b == b;
    } else {
      RunsCompose(ProxyApply(s, a[0]), a[1..], b);
      assert (a + b)[0] == a[0] && (a + b)[1..] == a[1..] + b;
    }
  }

  /** Whose answers two replies are, after two commands with their id and no other unanswered one. */
  lemma OwnsInTurn(events: seq<Event>, first: JdwpPacket, second: JdwpPacket, one: JdwpPacket, two: JdwpPacket)
    requires first.CommandPacket? && second.CommandPacket? && one.ReplyPacket? && two.ReplyPacket?
    requires first.id == second.id == one.id == two.id && Unanswered(events, first.id) == []
    ensures var all := events + [FromDebugger(first)] + [FromDebugger(second)]
                       + [FromVm(one)] + [Handled(one)] + [FromVm(two)] + [Handled(two)];
            && OwnCommand(all, |events| + 2) == Some((first.commandSet, first.command))
            && OwnCommand(all, |events| + 4) == Some((second.commandSet, second.command))
  {
    hide Unanswered, Unhandled, SpecAfter, HasSizes;
    var e1 := events + [FromDebugger(first)];
    var e2 := e1 + [FromDebugger(second)];
    var e3 := e2 + [FromVm(one)];
    var e4 := e3 + [Handled(one)];
    var all := e4 + [FromVm(two)] + [Handled(two)];
    SnocEvent(events, FromDebugger(first));
    SnocEvent(e1, FromDebugger(second));
    SnocEvent(e2, FromVm(one));
    SnocEvent(e3, Handled(one));
    assert all[..|events| + 2] == e2 && all[..|events| + 4] == e4;
  }

  /**
    * The shortest misreading: the debugger uses an id twice before the reply. The reply to the first command
    * is formatted as one to the second, and the second command's own reply is not recognised at all.
    */
  lemma ReusedIdIsMisread(s: Session, first: JdwpPacket, second: JdwpPacket, one: JdwpPacket, two: JdwpPacket)
    requires s.dbg.Receiving? && s.vm.Receiving? && !s.closeEvent
    requires first.CommandPacket? && first.Sendable() && !IsIdSizesCommand(first)
    requires second.CommandPacket? && second.Sendable() && !IsIdSizesCommand(second)
    requires IsFormatted(one) && one.Sendable() && IsFormatted(two) && two.Sendable()
    requires first.id == second.id == one.id == two.id
    requires first.id !in s.idsizesIds && Unanswered(s.events, first.id) == []
    ensures var steps := [DebuggerFrame(EncodePacket(first)), DebuggerSent, DebuggerFrame(EncodePacket(second))]
                         + ([VmFrame(EncodePacket(one)), VmSent] + ([VmFrame(EncodePacket(two)), VmSent] + []));
            && ProxyLegal(s, steps)
            && var t := ProxyRun(s, steps);
               && |t.events| == |s.events| + 6
               && t.log == s.log
                    + [LogEntry(one, |s.events| + 3, Some((second.commandSet, second.command)), s.spec)]
                    + [LogEntry(two, |s.events| + 5, None, s.spec)]
               && OwnCommand(t.events, |s.events| + 2) == Some((first.commandSet, first.command))
               && OwnCommand(t.events, |s.events| + 4) == Some((second.commandSet, second.command))
  {
    hide ProxyApply, ProxyEnabled, ProxyLegal, ProxyRun, EncodePacket, Unanswered, OwnCommand;
    var last := [VmFrame(EncodePacket(two)), VmSent] + [];
    var middle := [VmFrame(EncodePacket(one)), VmSent] + last;
    CommandsPass(s, first, second, middle);
    var t := ProxyRun(s, [DebuggerFrame(EncodePacket(first)), DebuggerSent, DebuggerFrame(EncodePacket(second))]);
    ReplyPasses(t, one, last);
    var u := ProxyApply(ProxyApply(t, VmFrame(EncodePacket(one))), VmSent);
    ReplyPasses(u, two, []);
    NoSteps(ProxyApply(ProxyApply(u, VmFrame(EncodePacket(two))), VmSent));
    OwnsInTurn(s.events, first, second, one, two);
  }

  lemma NoSteps(s: Session)
    ensures ProxyLegal(s, []) && ProxyRun(s, []) == s
  {
  }

  // ----- VMs that answer a command twice -----

  /** The last command that the debugger sent with this id, answered or not. */
  function LastCommand(events: seq<Event>, id: nat): Option<Code> {
    if events == [] then None
    else
      var e := events[|events| - 1];
      if IsCommand(e, id) then Some((e.p.commandSet, e.p.command))
      else LastCommand(events[..|events| - 1], id)
  }

  /** The sizes the VM announced last, where a further reply to an answered IDSizes command counts too. */
  function SpecAnnounced(events: seq<Event>): IdSizesSpec {
    if events == [] then DEFAULT_SPEC
    else
      var before, e := events[..|events| - 1], events[|events| - 1];
      if e.FromVm? && HasSizes(e.p) && LastCommand(before, e.p.id) == Some(SIZES)
      then SpecFromReply(e.p.data).value
      else SpecAnnounced(before)
  }

  lemma {:induction false} LastUnanswered(events: seq<Event>, id: nat)
    ensures var u := Unanswered(events, id); u != [] ==> LastCommand(events, id) == Some(u[|u| - 1])
  {
    if events != [] {
      LastUnanswered(events[..|events| - 1], id);
    }
  }

  lemma SnocAnnounced(events: seq<Event>, e: Event)
    ensures SpecAnnounced(events + [e])
            == if e.FromVm? && HasSizes(e.p) && LastCommand(events, e.p.id) == Some(SIZES)
               then SpecFromReply(e.p.data).value
               else SpecAnnounced(events)
    ensures e.FromVm? || e.Handled? ==> forall id: nat :: LastCommand(events + [e], id) == LastCommand(events, id)
  {
    assert (events + [e])[..|events|] == events;
  }

  /**
    * When a packet from the VM leaves the session with other sizes than the VM announced last: exactly when
    * it announces new sizes in reply to an IDSizes command that was answered before.
    */
  lemma SecondAnswerCondition(s: Session, frame: bytes)
    requires SizesTracked(s) && ProxyEnabled(s, VmFrame(frame)) && s.spec == SpecAnnounced(s.events)
    requires |Unanswered(s.events, ParseFrame(frame).value.0.id)| <= 1
    ensures var p := ParseFrame(frame).value.0;
            var t := ProxyApply(s, VmFrame(frame));
            t.spec != SpecAnnounced(t.events)
            <==> && HasSizes(p) && SpecFromReply(p.data).value != s.spec
                 && LastCommand(s.events, p.id) == Some(SIZES) && Unanswered(s.events, p.id) == []
  {
    hide ParseFrame, SpecFromReply, EncodePacket, Unanswered, SpecAfter, SpecAnnounced, LastCommand;
    var p := ParseFrame(frame).value.0;
    SnocAnnounced(s.events, FromVm(p));
    LastUnanswered(s.events, p.id);
  }

  /** The shortest such run: an error first, the sizes later. */
  lemma SecondAnswerIsMissed(s: Session, failure: JdwpPacket, success: JdwpPacket)
    requires s.vm.Receiving? && !s.closeEvent
    requires failure.ReplyPacket? && failure.Sendable() && failure.errorCode != 0
    requires HasSizes(success) && success.Sendable() && failure.id == success.id
    requires LastCommand(s.events, failure.id) == Some(SIZES)
    ensures var first, second := VmFrame(EncodePacket(failure)), VmFrame(EncodePacket(success));
            && ProxyEnabled(s, first) && var s1 := ProxyApply(s, first);
            && ProxyEnabled(s1, VmSent) && var s2 := ProxyApply(s1, VmSent);
            && ProxyEnabled(s2, second) && var s3 := ProxyApply(s2, second);
            && s3.spec == s.spec
            && SpecAnnounced(s3.events) == SpecFromReply(success.data).value
  {
    hide ParseFrame, EncodePacket, SpecFromReply, LastCommand, SpecAnnounced;
    FrameOf(failure);
    FrameOf(success);
    SnocAnnounced(s.events, FromVm(failure));
    SnocAnnounced(s.events + [FromVm(failure)], Handled(failure));
    SnocAnnounced(s.events + [FromVm(failure)] + [Handled(failure)], FromVm(success));
  }
}
