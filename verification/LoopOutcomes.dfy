/** What the client with a read loop achieves: commands are delivered, ends are noticed, close() releases. */
module LoopOutcomes {
  import opened Results
  import opened Spec
  import opened Packet
  import opened Multiplexer
  import opened SimpleConnection
  import opened Commands
  import opened AsyncLoop

  /** The read task waits for a packet. */
  predicate Receives(s: Loop) {
    s.task.Running? && s.hand.None? && !s.cancelAsked
  }

  // ----- arrival -----

  /**
    * What the read loop makes of a command packet: it takes it if the registered class decodes it, and ends
    * if the code is unknown or the payload does not decode. (Registered classes outside the model may do either.)
    */
  lemma ArrivalVerdict(s: Loop, p: JdwpPacket, others: bool)
    requires Receives(s) && p.CommandPacket?
    ensures LoopEnabled(s, PacketArrives(p, others))
    ensures var r := ReadCommand(s.client.spec, p.commandSet, p.command, p.data);
            var t := LoopApply(s, PacketArrives(p, others));
            && t.delivered == s.delivered
            && (r.Ok? ==> t.hand == Some(p) && t.task.Running? && t.queue == s.queue && !t.cancelAsked)
            && (r.Err? && !r.error.OutsideModel? ==>
                  t.task == Ended(DecodeFailed(p, s.client.spec)) && t.hand.None? && t.shut && t.queue == s.queue)
  {
    hide ReadCommand, Apply;
  }

  /** Every modelled command that a peer with the same spec can send, but a lossy SetValues, is taken. */
  lemma CommandIsTaken(s: Loop, id: nat, c: JdwpCommand, others: bool)
    requires Receives(s) && CommandFits(s.client.spec, c) && SurvivesTheWire(c)
    ensures var p := CommandToPacket(s.client.spec, id, c);
            && LoopEnabled(s, PacketArrives(p, others))
            && var t := LoopApply(s, PacketArrives(p, others));
               t.hand == Some(p) && t.task.Running? && t.queue == s.queue && t.delivered == s.delivered
  {
    PayloadDecodes(s.client.spec, c);
    hide ReadCommand, EncodeCommand, CommandFits, SurvivesTheWire, LoopApply;
    ArrivalVerdict(s, CommandToPacket(s.client.spec, id, c), others);
  }

  lemma TakeApplies(s: Loop)
    requires s.queue != []
    ensures LoopEnabled(s, Take)
    ensures LoopApply(s, Take) == s.(delivered := s.delivered + [s.queue[0]], queue := s.queue[1..])
  {
  }

  lemma {:induction false} TakesDeliver(s: Loop, n: nat)
    requires n <= |s.queue|
    ensures LoopLegal(s, Takes(n))
    ensures LoopRun(s, Takes(n)) == s.(delivered := s.delivered + s.queue[..n], queue := s.queue[n..])
    decreases n
  {
    hide OnConn, Decodes, EndTask, NextReceive, StartTask, ClientApply, LoopApply;
    if n > 0 {
      TakeApplies(s);
      var t := LoopApply(s, Take);
      TakesDeliver(t, n - 1);
      assert Takes(n)[0] == Take && Takes(n)[1..] == Takes(n - 1);
      assert s.delivered + s.queue[..n] == t.delivered + t.queue[..n - 1];
    } else {
      assert s.delivered + s.queue[..0] == s.delivered;
    }
  }

  lemma PutQueues(s: Loop)
    requires s.task.Running? && s.hand.Some?
    ensures LoopEnabled(s, Put)
    ensures var t := LoopApply(s, Put);
            t.queue == s.queue + [s.hand.value] && t.hand.None? && t.delivered == s.delivered
  {
    hide Broken;
  }

  /** The command arrives, is put on the queue, and consumers take the whole queue. */
  function DeliveryRun(s: Loop, p: JdwpPacket, others: bool): seq<LoopStep> {
    [PacketArrives(p, others), Put] + Takes(|s.queue| + 1)
  }

  /** Such a command reaches a consumer, after everything that was queued before it. */
  lemma CommandIsDelivered(s: Loop, id: nat, c: JdwpCommand, others: bool)
    requires Receives(s) && CommandFits(s.client.spec, c) && SurvivesTheWire(c)
    ensures var p := CommandToPacket(s.client.spec, id, c);
            && LoopLegal(s, DeliveryRun(s, p, others))
            && LoopRun(s, DeliveryRun(s, p, others)).delivered == s.delivered + s.queue + [p]
  {
    var p := CommandToPacket(s.client.spec, id, c);
    CommandIsTaken(s, id, c, others);
    hide CommandFits, SurvivesTheWire, LoopApply, LoopEnabled, LoopLegal, LoopRun, CommandToPacket;
    var steps := DeliveryRun(s, p, others);
    var s1 := LoopApply(s, steps[0]);
    PutQueues(s1);
    var s2 := LoopApply(s1, Put);
    TakesDeliver(s2, |s2.queue|);
    assert s2.queue[..|s2.queue|] == s.queue + [p];
    assert s2.delivered + (s.queue + [p]) == s.delivered + s.queue + [p];
    assert steps[1..][0] == Put && steps[1..][1..] == Takes(|s2.queue|);
    LoopRunOne(s1, steps[1..]);
    LoopRunOne(s, steps);
  }

  // ----- the end of the read loop -----

  /** No other step ends the read task. */
  lemma OthersKeepTask(s: Loop, st: LoopStep)
    requires LoopEnabled(s, st) && !OfReadTask(st)
    ensures LoopApply(s, st).task == s.task || (s.task.NotStarted? && LoopApply(s, st).task.Created?)
  {
    hide Decodes, ClientApply, Broken, EndTask, NextReceive;
  }

  lemma WhenTaskStepEnds(s: Loop, st: LoopStep)
    requires LoopEnabled(s, st) && OfReadTask(st)
    ensures TaskDone(LoopApply(s, st).task) <==>
              || st.ReceiveFails? || st.CancelReachesTask?
              || (st.PacketArrives? && st.p.CommandPacket? && !Decodes(s.client.spec, st.p, st.others))
              || ((st.TaskBegins? || st.Put?) && Broken(s.client.conn))
              || (st.TaskBegins? && s.cancelAsked)
  {
    hide Decodes, ClientApply, Broken;
  }

  /** The exact steps with which the read task, once created, is over. */
  lemma WhenReadingEnds(s: Loop, st: LoopStep)
    requires LoopEnabled(s, st) && (s.task.Created? || s.task.Running?)
    ensures TaskDone(LoopApply(s, st).task) <==>
              || st.ReceiveFails? || st.CancelReachesTask?
              || (st.PacketArrives? && st.p.CommandPacket? && !Decodes(s.client.spec, st.p, st.others))
              || ((st.TaskBegins? || st.Put?) && Broken(s.client.conn))
              || (st.TaskBegins? && s.cancelAsked)
  {
    hide Decodes, Broken, LoopApply;
    if OfReadTask(st) {
      WhenTaskStepEnds(s, st);
    } else {
      OthersKeepTask(s, st);
    }
  }

  lemma TaskStepIsNoticed(s: Loop, st: LoopStep)
    requires LoopEnabled(s, st) && OfReadTask(st) && LoopApply(s, st).task.Ended?
    ensures var t := LoopApply(s, st);
            && t.shut && (t.failed <==> s.failed || !st.CancelReachesTask?)
            && t.queue == s.queue + (if st.Put? then [s.hand.value] else [])
            && t.delivered == s.delivered
  {
    hide Decodes, ClientApply, Broken;
  }

  /**
    * When the body of the read loop ends, the queue is shut down with everything in it, and the loop counts as
    * failed unless it was cancelled, so that later sends are refused and consumers are told to stop.
    */
  lemma EndIsNoticed(s: Loop, st: LoopStep)
    requires LoopEnabled(s, st) && !s.task.Ended? && LoopApply(s, st).task.Ended?
    ensures var t := LoopApply(s, st);
            && t.shut && (t.failed <==> s.failed || !st.CancelReachesTask?)
            && t.queue == s.queue + (if st.Put? then [s.hand.value] else [])
            && t.delivered == s.delivered
  {
    hide LoopApply;
    if OfReadTask(st) {
      TaskStepIsNoticed(s, st);
    } else {
      OthersKeepTask(s, st);
    }
  }

  /** The receiver may fail whenever the loop receives; then the loop ends and every waiting call has an outcome. */
  lemma ReceiverMayFail(s: Loop, code: nat)
    requires LoopInv(s) && Receives(s)
    ensures LoopEnabled(s, ReceiveFails(code))
    ensures var t := LoopApply(s, ReceiveFails(code)); t.task == Ended(ReceiveFailed) && t.failed && !SomebodyWaits(t)
  {
    EndOfReadingCondition(s, ReceiveFails(code));
    hide LoopInv, OnConn, SomebodyWaits;
  }

  /** A requester may go on whenever its connection lets it, whatever the read task does. */
  lemma RequestersMayGoOn(s: Loop, st: Step)
    requires Enabled(s.client.conn, st) && (st.SendDone? || st.SendRaised? || st.CancelRequester? || st.Resume?)
    ensures LoopEnabled(s, Requester(st))
    ensures LoopApply(s, Requester(st)) == s.(client := ClientApply(s.client, Other(st)))
  {
    hide ClientApply, Enabled;
  }

  /** A closed or failed client starts its read loop, but sends nothing and spends no id; another one sends. */
  lemma SendCondition(s: Loop, step: ClientStep)
    requires !step.Other?
    ensures LoopApply(s, Send(step)).client ==
              if s.closed || s.failed then s.client else ClientApply(s.client, step)
    ensures !LoopApply(s, Send(step)).task.NotStarted?
  {
    hide ClientApply;
  }

  // ----- close() -----

  /** close() marks the client, and either asks for the end of the read task or releases everybody at once. */
  lemma CloseBeginning(s: Loop)
    requires LoopInv(s)
    ensures var t := LoopApply(s, CloseBegins);
            && t.closed
            && if s.task.Created? || s.task.Running? then
                 t.cancelAsked && t.task == s.task && t.closing == s.closing + 1
               else
                 t.closeReturned && t.client.conn.closed && t.client.conn.pending == map[] && !SomebodyWaits(t)
  {
    hide ClientApply, ClientInv, Waiting, Conserved;
    StepKeepsLoopInv(s, CloseBegins);
    LoopConnStep(s, CloseBegins);
    if !s.task.Created? && !s.task.Running? {
      var t := LoopApply(s, CloseBegins);
      ClientConnOk(t.client);
      hide LoopApply;
      BrokenForever(t.client.conn, []);
    }
  }

  /** The read task whose end was asked for can always end, whatever it is doing. */
  lemma AskedTaskCanEnd(s: Loop)
    requires s.cancelAsked && (s.task.Created? || s.task.Running?)
    ensures var st := if s.task.Created? then TaskBegins else CancelReachesTask;
            LoopEnabled(s, st) && TaskDone(LoopApply(s, st).task)
  {
    hide OnConn, Decodes, ClientApply;
  }

  /** After the wait close() releases everybody and returns. */
  lemma CloseResuming(s: Loop)
    requires LoopInv(s) && LoopEnabled(s, CloseResumes)
    ensures var t := LoopApply(s, CloseResumes);
            && t.closed && t.closeReturned && t.closing == s.closing - 1
            && t.client.conn.closed && t.client.conn.pending == map[] && !SomebodyWaits(t)
  {
    hide ClientApply, ClientInv, Waiting, Conserved;
    StepKeepsLoopInv(s, CloseResumes);
    LoopConnStep(s, CloseResumes);
    var t := LoopApply(s, CloseResumes);
    ClientConnOk(t.client);
    hide LoopApply;
    BrokenForever(t.client.conn, []);
  }

  /** Over every run, the loop gave up on a command only if registry or decoder reject it under its spec. */
  lemma OnlyUndecodableRejected(spec: IdSizesSpec, steps: seq<LoopStep>)
    requires LoopLegal(NewLoop(spec), steps)
    ensures var t := LoopRun(NewLoop(spec), steps).task;
            t.Ended? && t.reason.DecodeFailed? ==>
              t.reason.p.CommandPacket?
              && ReadCommand(t.reason.spec, t.reason.p.commandSet, t.reason.p.command, t.reason.p.data).Err?
  {
    NewLoopInv(spec);
    LoopRunKeepsInv(NewLoop(spec), steps);
    hide LoopLegal, LoopRun, ReadCommand, ClientInv, Conserved;
  }
}
