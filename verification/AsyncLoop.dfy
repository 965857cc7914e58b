/**
  * JdwpConnectionWithAsyncLoop (connection.py): a background task reads commands into a FIFO queue while
  * other tasks send commands and consume the queue. A transition system above the packet connection.
  */
module AsyncLoop {
  import opened Results
  import opened Spec
  import opened Packet
  import opened Commands
  import opened Multiplexer
  import opened SimpleConnection

  /** Why the body of the read task ended. */
  datatype EndReason =
    | DecodeFailed(p: JdwpPacket, spec: IdSizesSpec)   // the command is unknown or does not decode under this spec
    | ReceiveFailed                 // the receiver raised
    | Refused                       // the packet connection was already closed or failed
    | WasCancelled

  /** NeverRan: the read task was cancelled before its first step, so not even its `finally` runs. */
  datatype Task = NotStarted | Created | Running | Ended(reason: EndReason) | NeverRan

  /**
    * `hand` is a decoded command that the read task is about to put on the queue. `delivered` (history)
    * is what consumers got; `closing` counts the close() calls suspended on the read task.
    */
  datatype Loop = Loop(
    client: Client,
    closed: bool,
    failed: bool,
    task: Task,
    cancelAsked: bool,
    hand: Option<JdwpPacket>,
    queue: seq<JdwpPacket>,
    shut: bool,
    delivered: seq<JdwpPacket>,
    closing: nat,
    closeReturned: bool)

  function NewLoop(spec: IdSizesSpec): Loop {
    Loop(NewClient(spec), false, false, NotStarted, false, None, [], false, [], 0, false)
  }

  datatype LoopStep =
    | Start
    | TaskBegins
    | PacketArrives(p: JdwpPacket, others: bool)   // others: see Decodes
    | Put
    | ReceiveFails(code: nat)
    | CancelReachesTask
    | AskCancel
    | Take                       // a consumer's get() on a queue that holds something
    | Send(step: ClientStep)     // send_command up to its first suspension
    | Requester(st: Step)        // a suspended send_command goes on, or its task is cancelled
    | CloseBegins
    | CloseResumes

  predicate TaskDone(t: Task) {
    t.Ended? || t.NeverRan?
  }

  predicate LoopEnabled(s: Loop, st: LoopStep) {
    match st
    case TaskBegins => s.task.Created?
    case PacketArrives(_, _) => s.task.Running? && s.hand.None? && !s.cancelAsked
    case ReceiveFails(_) => s.task.Running? && s.hand.None? && !s.cancelAsked
    case Put => s.task.Running? && s.hand.Some?
    case CancelReachesTask => s.task.Running? && s.cancelAsked
    case Take => s.queue != []
    case Send(step) => !step.Other?
    case Requester(st) =>
      (st.SendDone? || st.SendRaised? || st.CancelRequester? || st.Resume?) && Enabled(s.client.conn, st)
    case CloseResumes => s.closing > 0 && TaskDone(s.task)
    case _ => true
  }

  function OnConn(s: Loop, st: Step): Loop
    requires !st.Register? && Enabled(s.client.conn, st)
  {
    s.(client := ClientApply(s.client, Other(st)))
  }

  /** start() */
  function StartTask(s: Loop): Loop {
    if s.task.NotStarted? then s.(task := Created) else s
  }

  /** The read loop leaves its `while`; its `finally` shuts the queue down. */
  function EndTask(s: Loop, reason: EndReason): Loop {
    s.(task := Ended(reason), shut := true, failed := s.failed || !reason.WasCancelled?)
  }

  /** The next turn of the loop: receive_command first checks the state of the packet connection. */
  function NextReceive(s: Loop): Loop {
    if Broken(s.client.conn) then EndTask(s, Refused) else s
  }

  function LoopApply(s: Loop, st: LoopStep): Loop
    requires LoopEnabled(s, st)
  {
    match st
    case Start => StartTask(s)
    case TaskBegins =>
      if s.cancelAsked then s.(task := NeverRan) else NextReceive(s.(task := Running))
    case PacketArrives(p, others) =>
      var s' := OnConn(s, Arrive(p));
      if p.ReplyPacket? then s'
      else if Decodes(s.client.spec, p, others) then s'.(hand := Some(p))
      else EndTask(s', DecodeFailed(p, s.client.spec))
    case Put => NextReceive(s.(queue := s.queue + [s.hand.value], hand := None))
    case ReceiveFails(code) => EndTask(OnConn(s, ReceiveRaised(OtherError(code))), ReceiveFailed)
    case CancelReachesTask =>
      EndTask(if s.hand.None? then OnConn(s, ReceiveRaised(CancelledError)) else s, WasCancelled)
    case AskCancel => if s.task.Created? || s.task.Running? then s.(cancelAsked := true) else s
    case Take => s.(delivered := s.delivered + [s.queue[0]], queue := s.queue[1..])
    case Send(step) =>
      var s' := StartTask(s);
      if s.closed || s.failed then s' else s'.(client := ClientApply(s.client, step))
    case Requester(st) => OnConn(s, st)
    case CloseBegins =>
      if s.task.Created? || s.task.Running? then s.(closed := true, cancelAsked := true, closing := s.closing + 1)
      else OnConn(s.(closed := true), Step.Close).(closeReturned := true)
    case CloseResumes =>
      OnConn(s, Step.Close).(closing := s.closing - 1, closeReturned := true)
  }

  /** receive_command raises now: the queue is empty and shut down. */
  predicate ConsumerStops(s: Loop) {
    s.queue == [] && s.shut
  }

  // ----- invariants -----

  /** The command packets among ps, in order. */
  function CommandsOf(ps: seq<JdwpPacket>): seq<JdwpPacket> {
    if ps == [] then []
    else CommandsOf(ps[..|ps| - 1]) + if ps[|ps| - 1].CommandPacket? then [ps[|ps| - 1]] else []
  }

  lemma CommandsOfSnoc(ps: seq<JdwpPacket>, p: JdwpPacket)
    ensures CommandsOf(ps + [p]) == CommandsOf(ps) + if p.CommandPacket? then [p] else []
  {
    assert (ps + [p])[..|ps|] == ps;
  }

  /** The command that killed the loop, which no consumer will see. */
  function Undecodable(s: Loop): seq<JdwpPacket> {
    if s.task.Ended? && s.task.reason.DecodeFailed? then [s.task.reason.p] else []
  }

  function InHand(s: Loop): seq<JdwpPacket> {
    if s.hand.Some? then [s.hand.value] else []
  }

  /** Commands delivered, queued, in hand and rejected are the commands received, in order. */
  ghost predicate Conserved(s: Loop) {
    s.delivered + s.queue + InHand(s) + Undecodable(s) == CommandsOf(s.client.conn.received)
  }

  /** The registry or the decoder rejects this command. */
  predicate IsUndecodable(p: JdwpPacket, spec: IdSizesSpec) {
    p.CommandPacket? && ReadCommand(spec, p.commandSet, p.command, p.data).Err?
  }

  ghost predicate TaskOk(s: Loop) {
    && (s.shut <==> s.task.Ended?)
    && (s.hand.Some? ==> s.task.Running? || s.task == Ended(WasCancelled))
    && (s.task.NotStarted? || s.task.Created? || s.task.NeverRan? ==>
          s.hand.None? && s.queue == [] && s.delivered == [])
    && (s.task.Ended? && !s.task.reason.WasCancelled? ==> s.failed)
    && (s.task.Ended? && s.task.reason.DecodeFailed? ==> IsUndecodable(s.task.reason.p, s.task.reason.spec))
    && (s.task.NotStarted? ==> !s.cancelAsked)
    && (s.client.conn.closed ==> s.closed && !s.task.Running?)
    && (s.closing > 0 ==> s.closed)
    && (s.closeReturned ==> s.client.conn.closed)
  }

  ghost predicate LoopInv(s: Loop) {
    ClientInv(s.client) && Conserved(s) && TaskOk(s)
  }

  lemma StepKeepsClientInv(s: Loop, st: LoopStep)
    requires ClientInv(s.client) && LoopEnabled(s, st)
    ensures ClientInv(LoopApply(s, st).client)
  {
    hide ClientInv;
    match st {
      case PacketArrives(p, _) => ClientStepKeepsInv(s.client, Other(Arrive(p)));
      case ReceiveFails(code) => ClientStepKeepsInv(s.client, Other(ReceiveRaised(OtherError(code))));
      case CancelReachesTask => ClientStepKeepsInv(s.client, Other(ReceiveRaised(CancelledError)));
      case Send(step) => ClientStepKeepsInv(s.client, step);
      case Requester(step) => ClientStepKeepsInv(s.client, Other(step));
      case CloseBegins => ClientStepKeepsInv(s.client, Other(Step.Close));
      case CloseResumes => ClientStepKeepsInv(s.client, Other(Step.Close));
      case _ =>
    }
  }

  /** What the steps of the packet connection do to the parts that the loop looks at. */
  lemma ConnStep(c: Client, st: ClientStep)
    requires ClientEnabled(c, st)
    ensures var d := ClientApply(c, st).conn;
            && d.received == (if st.Other? && st.st.Arrive? then c.conn.received + [st.st.p] else c.conn.received)
            && d.closed == (c.conn.closed || (st.Other? && st.st.Close?))
  {
  }

  /** close() gets past the read task and closes the packet connection. */
  predicate ClosesConn(s: Loop, st: LoopStep) {
    st.CloseResumes? || (st.CloseBegins? && !s.task.Created? && !s.task.Running?)
  }

  lemma LoopConnStep(s: Loop, st: LoopStep)
    requires LoopEnabled(s, st)
    ensures var d := LoopApply(s, st).client.conn;
            && d.received ==
               (if st.PacketArrives? then s.client.conn.received + [st.p] else s.client.conn.received)
            && d.closed == (s.client.conn.closed || ClosesConn(s, st))
  {
    hide ClientApply, Apply, Decodes, Broken;
    match st {
      case PacketArrives(p, _) => ConnStep(s.client, Other(Arrive(p)));
      case ReceiveFails(code) => ConnStep(s.client, Other(ReceiveRaised(OtherError(code))));
      case CancelReachesTask => ConnStep(s.client, Other(ReceiveRaised(CancelledError)));
      case Send(step) => ConnStep(s.client, step);
      case Requester(step) => ConnStep(s.client, Other(step));
      case CloseBegins => ConnStep(s.client, Other(Step.Close));
      case CloseResumes => ConnStep(s.client, Other(Step.Close));
      case _ =>
    }
  }

  /** A step of the read task itself. */
  predicate OfReadTask(st: LoopStep) {
    st.TaskBegins? || st.PacketArrives? || st.Put? || st.ReceiveFails? || st.CancelReachesTask?
  }

  lemma TaskStepKeepsConserved(s: Loop, st: LoopStep)
    requires Conserved(s) && TaskOk(s) && LoopEnabled(s, st) && OfReadTask(st)
    ensures Conserved(LoopApply(s, st))
  {
    hide ClientApply, CommandsOf, Broken, Enabled;
    LoopConnStep(s, st);
    match st {
      case PacketArrives(p, _) =>
        CommandsOfSnoc(s.client.conn.received, p);
      case Put =>
        assert s.delivered + s.queue + [s.hand.value] == s.delivered + (s.queue + [s.hand.value]);
      case _ =>
    }
  }

  lemma StepKeepsConserved(s: Loop, st: LoopStep)
    requires Conserved(s) && TaskOk(s) && LoopEnabled(s, st)
    ensures Conserved(LoopApply(s, st))
  {
    hide ClientApply, CommandsOf, Broken, Enabled, EndTask, NextReceive;
    if OfReadTask(st) {
      TaskStepKeepsConserved(s, st);
    } else {
      LoopConnStep(s, st);
      if st.Take? {
        assert s.delivered + s.queue == (s.delivered + [s.queue[0]]) + s.queue[1..];
      }
    }
  }

  lemma RejectedIsUndecodable(spec: IdSizesSpec, p: JdwpPacket, others: bool)
    requires p.CommandPacket? && !Decodes(spec, p, others)
    ensures IsUndecodable(p, spec)
  {
    hide ReadCommand;
  }

  lemma TaskStepKeepsTaskOk(s: Loop, st: LoopStep)
    requires TaskOk(s) && LoopEnabled(s, st) && OfReadTask(st)
    ensures TaskOk(LoopApply(s, st))
  {
    hide ClientApply, Enabled, Decodes, IsUndecodable;
    LoopConnStep(s, st);
    if st.PacketArrives? && st.p.CommandPacket? && !Decodes(s.client.spec, st.p, st.others) {
      RejectedIsUndecodable(s.client.spec, st.p, st.others);
    }
  }

  lemma StepKeepsTaskOk(s: Loop, st: LoopStep)
    requires TaskOk(s) && LoopEnabled(s, st)
    ensures TaskOk(LoopApply(s, st))
  {
    hide ClientApply, Enabled, Broken, EndTask, NextReceive, IsUndecodable, Decodes;
    if OfReadTask(st) {
      TaskStepKeepsTaskOk(s, st);
    } else {
      LoopConnStep(s, st);
    }
  }

  lemma StepKeepsLoopInv(s: Loop, st: LoopStep)
    requires LoopInv(s) && LoopEnabled(s, st)
    ensures LoopInv(LoopApply(s, st))
  {
    StepKeepsClientInv(s, st);
    StepKeepsConserved(s, st);
    StepKeepsTaskOk(s, st);
  }

  predicate LoopLegal(s: Loop, steps: seq<LoopStep>)
    decreases |steps|
  {
    steps == [] || (LoopEnabled(s, steps[0]) && LoopLegal(LoopApply(s, steps[0]), steps[1..]))
  }

  function LoopRun(s: Loop, steps: seq<LoopStep>): Loop
    requires LoopLegal(s, steps)
    decreases |steps|
  {
    if steps == [] then s else LoopRun(LoopApply(s, steps[0]), steps[1..])
  }

  lemma {:induction false} LoopRunKeepsInv(s: Loop, steps: seq<LoopStep>)
    requires LoopInv(s) && LoopLegal(s, steps)
    ensures LoopInv(LoopRun(s, steps))
    decreases |steps|
  {
    hide LoopInv, LoopApply, LoopEnabled;
    if steps != [] {
      StepKeepsLoopInv(s, steps[0]);
      LoopRunKeepsInv(LoopApply(s, steps[0]), steps[1..]);
    }
  }

  lemma NewLoopInv(spec: IdSizesSpec)
    ensures LoopInv(NewLoop(spec))
  {
    NewClientInv(spec);
  }

  // ----- what consumers and requesters are promised -----

  /** After every interleaving no command is lost, duplicated or reordered between wire and consumer. */
  lemma FifoConservation(spec: IdSizesSpec, steps: seq<LoopStep>)
    requires LoopLegal(NewLoop(spec), steps)
    ensures var s := LoopRun(NewLoop(spec), steps);
            s.delivered + s.queue + InHand(s) + Undecodable(s) == CommandsOf(s.client.conn.received)
  {
    NewLoopInv(spec);
    LoopRunKeepsInv(NewLoop(spec), steps);
    hide LoopLegal, LoopRun;
  }

  /** A received packet is a command, or the one reply that resolved some future, or a dropped reply. */
  lemma PacketFates(spec: IdSizesSpec, steps: seq<LoopStep>, k: nat)
    requires LoopLegal(NewLoop(spec), steps) && k < |LoopRun(NewLoop(spec), steps).client.conn.received|
    ensures var s := LoopRun(NewLoop(spec), steps).client.conn;
            var p := s.received[k];
            || (p.CommandPacket? && p in CommandsOf(s.received)
                && forall h | h in s.answeredBy :: s.answeredBy[h] != k)
            || (p.ReplyPacket?
                && exists h | h in s.answeredBy ::
                     s.answeredBy[h] == k && forall g | g in s.answeredBy && g != h :: s.answeredBy[g] != k)
            || (p.ReplyPacket? && forall h | h in s.answeredBy :: s.answeredBy[h] != k)
  {
    NewLoopInv(spec);
    LoopRunKeepsInv(NewLoop(spec), steps);
    hide LoopLegal, LoopRun, CommandsOf;
    var s := LoopRun(NewLoop(spec), steps).client.conn;
    if s.received[k].CommandPacket? {
      CommandsOfHas(s.received, k);
    } else if h :| h in s.answeredBy && s.answeredBy[h] == k {
      assert forall g | g in s.answeredBy && g != h :: s.answeredBy[g] != k;
    }
  }

  lemma {:induction false} CommandsOfHas(ps: seq<JdwpPacket>, k: nat)
    requires k < |ps| && ps[k].CommandPacket?
    ensures ps[k] in CommandsOf(ps)
  {
    if k < |ps| - 1 {
      CommandsOfHas(ps[..|ps| - 1], k);
    }
  }

  lemma EndedStep(s: Loop, st: LoopStep)
    requires s.task.Ended? && s.shut && LoopEnabled(s, st)
    ensures var t := LoopApply(s, st);
            t.task == s.task && t.shut && t.delivered + t.queue == s.delivered + s.queue
  {
    hide ClientApply, Broken, Decodes, NextReceive, EndTask;
    if st.Take? {
      assert s.queue == [s.queue[0]] + s.queue[1..];
    }
  }

  /**
    * Drain, then stop: once the body of the read task has ended, what was delivered and what is queued
    * stays the same sequence; when a consumer is told to stop, exactly that has been delivered.
    */
  lemma {:induction false} DrainThenStop(s: Loop, steps: seq<LoopStep>)
    requires s.task.Ended? && s.shut && LoopLegal(s, steps)
    ensures var t := LoopRun(s, steps);
            && t.task == s.task && t.shut
            && t.delivered + t.queue == s.delivered + s.queue
            && (ConsumerStops(t) ==> t.delivered == s.delivered + s.queue)
    decreases |steps|
  {
    hide LoopApply, LoopEnabled;
    if steps != [] {
      EndedStep(s, steps[0]);
      DrainThenStop(LoopApply(s, steps[0]), steps[1..]);
    }
  }

  function Takes(n: nat): (steps: seq<LoopStep>)
    ensures |steps| == n
  {
    if n == 0 then [] else [Take] + Takes(n - 1)
  }

  /** Iterating from there yields every queued command in order and then stops. */
  lemma {:induction false} DrainAll(s: Loop)
    requires s.task.Ended? && s.shut
    ensures LoopLegal(s, Takes(|s.queue|))
    ensures var t := LoopRun(s, Takes(|s.queue|));
            ConsumerStops(t) && t.delivered == s.delivered + s.queue
    decreases |s.queue|
  {
    hide OnConn, Decodes, EndTask, NextReceive, StartTask, ClientApply;
    if s.queue != [] {
      var t := LoopApply(s, Take);
      DrainAll(t);
      assert Takes(|s.queue|)[1..] == Takes(|t.queue|);
      assert s.queue == [s.queue[0]] + s.queue[1..];
    }
  }

  /** The read task can no longer reach its `finally`: it was cancelled before its first step. */
  predicate Doomed(s: Loop) {
    s.task.NeverRan? || (s.task.Created? && s.cancelAsked)
  }

  lemma {:induction false} DoomedForever(s: Loop, steps: seq<LoopStep>)
    requires Doomed(s) && !s.shut && LoopLegal(s, steps)
    ensures Doomed(LoopRun(s, steps)) && !ConsumerStops(LoopRun(s, steps))
    decreases |steps|
  {
    if steps != [] {
      DoomedStep(s, steps[0]);
      hide LoopApply, LoopEnabled;
      DoomedForever(LoopApply(s, steps[0]), steps[1..]);
    }
  }

  lemma DoomedStep(s: Loop, st: LoopStep)
    requires Doomed(s) && !s.shut && LoopEnabled(s, st)
    ensures Doomed(LoopApply(s, st)) && !LoopApply(s, st).shut
  {
  }

  /**
    * When a consumer can be told to stop at all: exactly when the read task was not cancelled before its
    * first step. Otherwise the queue is never shut down and a consumer waits forever, even after close().
    */
  lemma StopCondition(s: Loop)
    requires LoopInv(s)
    ensures !Doomed(s) <==> exists steps :: LoopLegal(s, steps) && ConsumerStops(LoopRun(s, steps))
  {
    if Doomed(s) {
      forall steps | LoopLegal(s, steps)
        ensures !ConsumerStops(LoopRun(s, steps))
      {
        DoomedForever(s, steps);
      }
    } else {
      var before := EndingSteps(s);
      EndingStepsEnd(s);
      var t := LoopRun(s, before);
      DrainAll(t);
      RunsCompose(s, before, Takes(|t.queue|));
    }
  }

  /** Steps that lead the read task to its end. */
  function EndingSteps(s: Loop): seq<LoopStep> {
    match s.task
    case NotStarted => [Start, TaskBegins] + EndingFromRunning(s)
    case Created => [TaskBegins] + EndingFromRunning(s)
    case Running => EndingFromRunning(s)
    case _ => []
  }

  function EndingFromRunning(s: Loop): seq<LoopStep> {
    if Broken(s.client.conn) && !s.task.Running? then [] else [AskCancel, CancelReachesTask]
  }

  lemma EndingStepsEnd(s: Loop)
    requires LoopInv(s) && !Doomed(s)
    ensures LoopLegal(s, EndingSteps(s))
    ensures LoopRun(s, EndingSteps(s)).task.Ended? && LoopRun(s, EndingSteps(s)).shut
  {
    hide OnConn, Decodes, EndTask, NextReceive, ClientApply, Conserved, ClientInv;
    match s.task {
      case NotStarted =>
        var s1 := LoopApply(s, Start);
        CreatedEnds(s1);
        LoopRunOne(s, EndingSteps(s));
        assert EndingSteps(s)[1..] == EndingSteps(s1);
      case Created => CreatedEnds(s);
      case Running => RunningEnds(s);
      case _ =>
    }
  }

  lemma LoopRunOne(s: Loop, steps: seq<LoopStep>)
    requires steps != [] && LoopEnabled(s, steps[0])
    ensures LoopLegal(LoopApply(s, steps[0]), steps[1..]) ==>
              LoopLegal(s, steps) && LoopRun(s, steps) == LoopRun(LoopApply(s, steps[0]), steps[1..])
  {
  }

  lemma RunningEnds(s: Loop)
    requires s.task.Running?
    ensures LoopLegal(s, [AskCancel, CancelReachesTask])
    ensures LoopRun(s, [AskCancel, CancelReachesTask]).task.Ended?
    ensures LoopRun(s, [AskCancel, CancelReachesTask]).shut
  {
    hide OnConn, Decodes, ClientApply;
    var steps := [AskCancel, CancelReachesTask];
    var s1 := LoopApply(s, AskCancel);
    assert steps[1..] == [CancelReachesTask] && steps[1..][1..] == [];
    LoopRunOne(s1, steps[1..]);
    LoopRunOne(s, steps);
  }

  lemma CreatedEnds(s: Loop)
    requires s.task.Created? && !s.cancelAsked
    ensures LoopLegal(s, EndingSteps(s))
    ensures LoopRun(s, EndingSteps(s)).task.Ended? && LoopRun(s, EndingSteps(s)).shut
  {
    hide OnConn, Decodes, ClientApply, Broken;
    var steps := EndingSteps(s);
    var s1 := LoopApply(s, TaskBegins);
    assert steps[1..] == EndingFromRunning(s);
    if !Broken(s.client.conn) {
      RunningEnds(s1);
    }
    LoopRunOne(s, steps);
  }

  lemma {:induction false} RunsCompose(s: Loop, a: seq<LoopStep>, b: seq<LoopStep>)
    requires LoopLegal(s, a) && LoopLegal(LoopRun(s, a), b)
    ensures LoopLegal(s, a + b) && LoopRun(s, a + b) == LoopRun(LoopRun(s, a), b)
    decreases |a|
  {
    hide LoopApply, LoopEnabled;
    if a == [] {
      assert a + b == b;
    } else {
      RunsCompose(LoopApply(s, a[0]), a[1..], b);
      assert (a + b)[0] == a[0] && (a + b)[1..] == a[1..] + b;
    }
  }

  /** Some call waits for a reply. */
  ghost predicate SomebodyWaits(s: Loop) {
    exists h: nat :: Waiting(s.client.conn, h)
  }

  /**
    * When the end of the read task leaves nobody waiting: exactly when nobody waited before, or the receiver
    * raised, or the cancellation came while the task was receiving. In particular a command that does not
    * decode, and a cancellation while a command is put on the queue, leave the waiting calls as they are.
    */
  lemma EndOfReadingCondition(s: Loop, st: LoopStep)
    requires LoopInv(s) && LoopEnabled(s, st) && !TaskDone(s.task) && TaskDone(LoopApply(s, st).task)
    ensures !SomebodyWaits(LoopApply(s, st))
            <==> !SomebodyWaits(s) || st.ReceiveFails? || (st.CancelReachesTask? && s.hand.None?)
  {
    hide LoopInv, LoopApply, Waiting, TaskDone;
    if st.ReceiveFails? || (st.CancelReachesTask? && s.hand.None?) {
      NobodyWaitsAfterFailure(s, st);
    } else {
      SilentEnd(s, st);
    }
  }

  lemma NobodyWaitsAfterFailure(s: Loop, st: LoopStep)
    requires LoopInv(s) && LoopEnabled(s, st) && (st.ReceiveFails? || (st.CancelReachesTask? && s.hand.None?))
    ensures forall h: nat :: !Waiting(LoopApply(s, st).client.conn, h)
  {
    hide ClientInv, Conserved, TaskOk, Waiting;
    var t := LoopApply(s, st);
    StepKeepsLoopInv(s, st);
    assert Broken(t.client.conn);
    assert Inv(t.client.conn) by { ClientConnOk(t.client); }
    hide LoopApply;
    BrokenForever(t.client.conn, []);
  }

  lemma ClientConnOk(c: Client)
    requires ClientInv(c)
    ensures Inv(c.conn)
  {
  }

  /** Any other end of the read task leaves each waiting call waiting and makes nobody wait. */
  lemma SilentEnd(s: Loop, st: LoopStep)
    requires LoopInv(s) && LoopEnabled(s, st) && !TaskDone(s.task) && TaskDone(LoopApply(s, st).task)
    requires !st.ReceiveFails? && !(st.CancelReachesTask? && s.hand.None?)
    ensures forall h: nat :: Waiting(LoopApply(s, st).client.conn, h) <==> Waiting(s.client.conn, h)
  {
    hide LoopInv, Decodes, Waiting;
    match st {
      case PacketArrives(p, _) => CommandLeavesFutures(s, p);
      case _ =>
    }
  }

  lemma CommandLeavesFutures(s: Loop, p: JdwpPacket)
    ensures p.CommandPacket? ==>
              var t := OnConn(s, Arrive(p)).client.conn;
              forall h: nat :: Waiting(t, h) <==> Waiting(s.client.conn, h)
  {
  }

  /** Whoever waits when the read task is over goes on waiting until close() or its own cancellation. */
  lemma {:induction false} NobodyReadsAnyMore(s: Loop, steps: seq<LoopStep>, h: nat)
    requires TaskOk(s) && TaskDone(s.task) && Waiting(s.client.conn, h) && LoopLegal(s, steps)
    requires CloseBegins !in steps && CloseResumes !in steps
    requires Requester(CancelRequester(h)) !in steps && Requester(SendRaised(h)) !in steps
    ensures Waiting(LoopRun(s, steps).client.conn, h)
    decreases |steps|
  {
    if steps != [] {
      DeafStep(s, steps[0], h);
      StepKeepsTaskOk(s, steps[0]);
      hide LoopApply, LoopEnabled, Waiting, TaskOk;
      NobodyReadsAnyMore(LoopApply(s, steps[0]), steps[1..], h);
    }
  }

  lemma DeafStep(s: Loop, st: LoopStep, h: nat)
    requires TaskDone(s.task) && Waiting(s.client.conn, h) && LoopEnabled(s, st)
    requires !st.CloseBegins? && !st.CloseResumes?
    requires st != Requester(CancelRequester(h)) && st != Requester(SendRaised(h))
    ensures Waiting(LoopApply(s, st).client.conn, h) && TaskDone(LoopApply(s, st).task)
  {
    hide Waiting, Apply, Enabled;
    match st {
      case Send(step) =>
        if step.SendCommand? {
          StillWaiting(s.client.conn, Register(s.client.nextId), h);
        }
      case Requester(step) => StillWaiting(s.client.conn, step, h);
      case _ =>
    }
  }

  lemma StillWaiting(s: State, st: Step, h: nat)
    requires Waiting(s, h) && Enabled(s, st)
    requires st.Register? || st.SendDone? || st.Resume? || st.SendRaised? || st.CancelRequester?
    requires st != CancelRequester(h) && st != SendRaised(h)
    ensures Waiting(Apply(s, st), h)
  {
  }

  /** The decode failure itself changes nothing that a waiting requester could notice. */
  lemma DecodeFailureIsSilent(s: Loop, p: JdwpPacket, others: bool)
    requires p.CommandPacket? && !Decodes(s.client.spec, p, others) && LoopEnabled(s, PacketArrives(p, others))
    ensures var t := LoopApply(s, PacketArrives(p, others));
            && t.task == Ended(DecodeFailed(p, s.client.spec)) && t.shut && t.failed
            && t.client.conn.futures == s.client.conn.futures
            && t.client.conn.pending == s.client.conn.pending
            && Broken(t.client.conn) == Broken(s.client.conn)
  {
  }

  /** A call is waiting when a command arrives whose codes are not in the registry. */
  function DeafRun(p: JdwpPacket): seq<LoopStep> {
    [Send(ClientStep.SendCommand(false)), TaskBegins, Requester(SendDone(0)), PacketArrives(p, true)]
  }

  /** A new client has sent its first command and receives. */
  predicate FirstCallWaits(s: Loop) {
    s.task.Running? && s.hand.None? && !s.cancelAsked && Waiting(s.client.conn, 0) && !Broken(s.client.conn)
  }

  /** The first send_command of a new client registers call 0. */
  lemma FirstSend(spec: IdSizesSpec)
    ensures var s := LoopApply(NewLoop(spec), Send(ClientStep.SendCommand(false)));
            && s.task.Created? && !s.cancelAsked && s.hand.None? && !Broken(s.client.conn)
            && s.client.conn.futures == [Undone] && s.client.conn.requests == [Request(1, 0, Sending, false)]
            && s.client.spec == spec
  {
  }

  lemma TaskStartsReceiving(s: Loop)
    requires s.task.Created? && !s.cancelAsked && !Broken(s.client.conn)
    ensures LoopEnabled(s, TaskBegins) && LoopApply(s, TaskBegins) == s.(task := Running)
  {
  }

  lemma FirstCallAwaits(s: Loop)
    requires s.task.Running? && !s.cancelAsked && s.hand.None? && !Broken(s.client.conn)
    requires s.client.conn.futures == [Undone] && s.client.conn.requests == [Request(1, 0, Sending, false)]
    ensures LoopEnabled(s, Requester(SendDone(0))) && FirstCallWaits(LoopApply(s, Requester(SendDone(0))))
    ensures LoopApply(s, Requester(SendDone(0))).client.spec == s.client.spec
  {
  }

  lemma FirstCallIsSent(spec: IdSizesSpec)
    ensures var steps := [Send(ClientStep.SendCommand(false)), TaskBegins, Requester(SendDone(0))];
            && LoopLegal(NewLoop(spec), steps)
            && FirstCallWaits(LoopRun(NewLoop(spec), steps))
            && LoopRun(NewLoop(spec), steps).client.spec == spec
  {
    var steps := [Send(ClientStep.SendCommand(false)), TaskBegins, Requester(SendDone(0))];
    assert LoopEnabled(NewLoop(spec), steps[0]);
    hide LoopApply, Broken, FirstCallWaits, LoopEnabled;
    FirstSend(spec);
    var s1 := LoopApply(NewLoop(spec), steps[0]);
    TaskStartsReceiving(s1);
    var s2 := LoopApply(s1, steps[1]);
    FirstCallAwaits(s2);
    LoopRunOne(s2, steps[2..]);
    LoopRunOne(s1, steps[1..]);
    LoopRunOne(NewLoop(spec), steps);
  }

  /** The shortest silent end: a new client reads one unknown command while its first call waits. */
  lemma UnknownCommandDeafens(spec: IdSizesSpec, p: JdwpPacket)
    requires p.CommandPacket? && !IsRegistered(p.commandSet, p.command)
    ensures LoopLegal(NewLoop(spec), DeafRun(p))
    ensures var t := LoopRun(NewLoop(spec), DeafRun(p));
            t.task == Ended(DecodeFailed(p, spec)) && Waiting(t.client.conn, 0) && !Broken(t.client.conn)
  {
    UnregisteredIsRejected(spec, p, true);
    FirstCallIsSent(spec);
    var steps := [Send(ClientStep.SendCommand(false)), TaskBegins, Requester(SendDone(0))];
    var s := LoopRun(NewLoop(spec), steps);
    assert DeafRun(p) == steps + [PacketArrives(p, true)];
    hide Decodes, LoopRun, LoopLegal, Waiting, DeafRun;
    CommandLeavesFutures(s, p);
    DecodeFailureIsSilent(s, p, true);
    OneStep(s, PacketArrives(p, true));
    RunsCompose(NewLoop(spec), steps, [PacketArrives(p, true)]);
  }

  lemma OneStep(s: Loop, st: LoopStep)
    requires LoopEnabled(s, st)
    ensures LoopLegal(s, [st]) && LoopRun(s, [st]) == LoopApply(s, st)
  {
  }

  /** A client that is closed before its read task has run. */
  const DOOMED_RUN: seq<LoopStep> := [Start, CloseBegins, TaskBegins, CloseResumes]

  /** The shortest run after which consumers wait for ever: close() returns, the queue is never shut down. */
  lemma EarlyCloseDooms(spec: IdSizesSpec)
    ensures LoopLegal(NewLoop(spec), DOOMED_RUN)
    ensures var t := LoopRun(NewLoop(spec), DOOMED_RUN);
            && t.closeReturned && t.task.NeverRan? && t.queue == []
            && forall more | LoopLegal(t, more) :: !ConsumerStops(LoopRun(t, more))
  {
    var steps := DOOMED_RUN;
    var s1 := LoopApply(NewLoop(spec), steps[0]);
    var s2 := LoopApply(s1, steps[1]);
    var s3 := LoopApply(s2, steps[2]);
    LoopRunOne(s3, steps[3..]);
    LoopRunOne(s2, steps[2..]);
    LoopRunOne(s1, steps[1..]);
    LoopRunOne(NewLoop(spec), steps);
    var t := LoopRun(NewLoop(spec), steps);
    forall more | LoopLegal(t, more)
      ensures !ConsumerStops(LoopRun(t, more))
    {
      DoomedForever(t, more);
    }
  }

  /** After close() has returned, whatever happens, nobody waits and no command is sent any more. */
  lemma {:induction false} ClosedForever(s: Loop, steps: seq<LoopStep>)
    requires LoopInv(s) && s.closeReturned && LoopLegal(s, steps)
    ensures var t := LoopRun(s, steps);
            && t.closed && t.closeReturned && t.client.nextId == s.client.nextId
            && |t.client.conn.requests| == |s.client.conn.requests|
            && (forall h: nat :: !Waiting(t.client.conn, h))
    decreases |steps|
  {
    if steps != [] {
      StepKeepsLoopInv(s, steps[0]);
      ClosedStep(s, steps[0]);
      hide LoopInv, LoopApply, LoopEnabled, Waiting;
      ClosedForever(LoopApply(s, steps[0]), steps[1..]);
    }
  }

  lemma ClosedStep(s: Loop, st: LoopStep)
    requires TaskOk(s) && s.closeReturned && LoopEnabled(s, st)
    ensures var t := LoopApply(s, st);
            && t.closeReturned && t.client.nextId == s.client.nextId
            && |t.client.conn.requests| == |s.client.conn.requests|
  {
    hide Decodes, OnConn, Apply;
    match st {
      case PacketArrives(p, _) => OnConnKeepsRequests(s, Arrive(p));
      case ReceiveFails(code) => OnConnKeepsRequests(s, ReceiveRaised(OtherError(code)));
      case CancelReachesTask => OnConnKeepsRequests(s, ReceiveRaised(CancelledError));
      case Requester(step) => OnConnKeepsRequests(s, step);
      case CloseBegins => OnConnKeepsRequests(s.(closed := true), Step.Close);
      case CloseResumes => OnConnKeepsRequests(s, Step.Close);
      case _ =>
    }
  }

  lemma OnConnKeepsRequests(s: Loop, st: Step)
    requires !st.Register? && Enabled(s.client.conn, st)
    ensures var t := OnConn(s, st);
            && t == s.(client := t.client)
            && t.client.nextId == s.client.nextId
            && |t.client.conn.requests| == |s.client.conn.requests|
  {
  }
}
