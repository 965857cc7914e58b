/** JdwpConnectionWithAsyncLoop (connection.py): the code of each step, proved to be the loop's step. */
module LoopConnection {
  import opened Results
  import opened Bytes
  import opened Spec
  import opened Packet
  import opened Commands
  import opened Multiplexer
  import opened PacketConnection
  import opened SimpleConnection
  import opened AsyncLoop

  lemma ConnTableOk(s: Loop)
    requires LoopInv(s)
    ensures ClientInv(s.client) && PendingOk(s.client.conn)
  {
  }

  /** Sending either registers a request or only spends an id. */
  function SendStep(commandSet: int, command: int, registers: bool): (st: LoopStep)
    ensures forall s :: LoopEnabled(s, st)
  {
    Send(SendingStep(commandSet, command, registers))
  }

  lemma SendApplies(s: Loop, step: ClientStep)
    requires !step.Other?
    ensures LoopApply(s, Send(step)) ==
              if s.closed || s.failed then StartTask(s)
              else StartTask(s).(client := ClientApply(s.client, step))
  {
    hide StartTask, ClientApply;
  }

  lemma ArrivalApplies(s: Loop, p: JdwpPacket, others: bool)
    requires LoopEnabled(s, PacketArrives(p, others))
    ensures LoopApply(s, PacketArrives(p, others)) ==
              var t := OnConn(s, Arrive(p));
              if p.ReplyPacket? then t
              else if Decodes(s.client.spec, p, others) then t.(hand := Some(p))
              else EndTask(t, DecodeFailed(p, s.client.spec))
  {
    hide OnConn, Decodes, EndTask;
  }

  lemma CloseApplies(s: Loop)
    ensures LoopApply(s, CloseBegins) ==
              if s.task.Created? || s.task.Running? then
                s.(closed := true, cancelAsked := true, closing := s.closing + 1)
              else OnConn(s.(closed := true), Step.Close).(closeReturned := true)
  {
    hide OnConn;
  }

  class JdwpConnectionWithAsyncLoop {
    const delegate: SimpleJdwpConnection
    const state: ConnectionState
    /** The asyncio queue of incoming commands (unbounded) and whether it was shut down. */
    var incomingCommands: seq<JdwpPacket>
    var queueShut: bool
    /** The read task and whether its cancellation was requested. */
    var readTask: Task
    var cancelAsked: bool
    ghost var hand: Option<JdwpPacket>
    ghost var delivered: seq<JdwpPacket>
    ghost var closing: nat
    ghost var closeReturned: bool

    ghost function Abs(): Loop
      reads this, state, delegate, delegate.packetConn, delegate.packetConn.state
    {
      Loop(delegate.Abs(), state.closed, state.error.Some?, readTask, cancelAsked, hand, incomingCommands,
           queueShut, delivered, closing, closeReturned)
    }

    ghost predicate Valid()
      reads this, state, delegate, delegate.packetConn, delegate.packetConn.state
    {
      LoopInv(Abs()) && state != delegate.packetConn.state
    }

    constructor (delegate: SimpleJdwpConnection)
      requires delegate.Abs() == NewClient(delegate.spec)
      ensures Valid() && Abs() == NewLoop(delegate.spec) && this.delegate == delegate && fresh(state)
    {
      this.delegate := delegate;
      state := new ConnectionState();
      incomingCommands := [];
      queueShut := false;
      readTask := NotStarted;
      cancelAsked := false;
      hand := None;
      delivered := [];
      closing := 0;
      closeReturned := false;
      new;
      NewLoopInv(delegate.spec);
    }

    method Start()
      requires Valid()
      modifies this
      ensures Abs() == LoopApply(old(Abs()), LoopStep.Start) == StartTask(old(Abs())) && Valid()
    {
      hide LoopInv;
      StepKeepsLoopInv(Abs(), LoopStep.Start);
      if readTask.NotStarted? {
        readTask := Created;
      }
    }

    // ----- the calls into the delegate -----

    method DeliverPacket(p: JdwpPacket) returns (cmd: Option<JdwpPacket>)
      requires delegate.packetConn.Valid() && state != delegate.packetConn.state
      modifies delegate.packetConn
      ensures Abs() == OnConn(old(Abs()), Arrive(p))
      ensures cmd == if p.CommandPacket? then Some(p) else None
    {
      hide PendingOk, Apply;
      cmd := delegate.packetConn.HandlePacket(p);
    }

    method FailReceive(cause: Cause)
      requires delegate.packetConn.Valid() && state != delegate.packetConn.state
      modifies delegate.packetConn, delegate.packetConn.state
      ensures Abs() == OnConn(old(Abs()), ReceiveRaised(cause))
    {
      hide PendingOk, Apply;
      delegate.packetConn.HandleReceiveError(cause);
    }

    /** `await self.delegate.send_command(cmd)` up to its first suspension. */
    method SendOnDelegate(commandSet: int, command: int, payload: Result<bytes>, hasResponse: bool)
      returns (r: Result<(JdwpPacket, Option<nat>)>)
      requires delegate.Valid() && state != delegate.packetConn.state
      modifies delegate`nextPacketId, delegate`asked, delegate.packetConn
      ensures Abs() == old(Abs()).(client :=
                ClientApply(old(Abs().client), SendingStep(commandSet, command, payload.Ok? && hasResponse)))
      ensures r.Ok? <==> payload.Ok? && (hasResponse ==> !Broken(old(delegate.packetConn.Abs())))
      ensures r.Ok? ==>
                && r.value.0 == CommandPacket(old(delegate.nextPacketId), 0, payload.value, commandSet, command)
                && r.value.1 == if hasResponse then Some(|old(delegate.packetConn.futures)|) else None
    {
      hide ClientInv, ClientApply, Broken, SendingStep;
      r := delegate.BeginSendCommand(commandSet, command, payload, hasResponse);
    }

    /** The check of the state, and the call of the delegate if it passes. */
    method SendIfOpen(commandSet: int, command: int, payload: Result<bytes>, hasResponse: bool)
      returns (r: Result<(JdwpPacket, Option<nat>)>)
      requires delegate.Valid() && state != delegate.packetConn.state
      modifies delegate`nextPacketId, delegate`asked, delegate.packetConn
      ensures Abs() ==
                if old(state.closed || state.error.Some?) then old(Abs())
                else old(Abs()).(client :=
                  ClientApply(old(Abs().client), SendingStep(commandSet, command, payload.Ok? && hasResponse)))
      ensures old(state.closed || state.error.Some?) ==> r == Err(RuntimeError)
      ensures r.Ok? <==>
                && payload.Ok? && !old(state.closed || state.error.Some?)
                && (hasResponse ==> !Broken(old(delegate.packetConn.Abs())))
      ensures r.Ok? ==>
                && r.value.0 == CommandPacket(old(delegate.nextPacketId), 0, payload.value, commandSet, command)
                && r.value.1 == if hasResponse then Some(|old(delegate.packetConn.futures)|) else None
    {
      hide ClientInv, ClientApply, Broken, SendingStep;
      var check := state.Check();
      if check.Fail? {
        return Err(RuntimeError);
      }
      r := SendOnDelegate(commandSet, command, payload, hasResponse);
    }

    /** `await self.delegate.close()`. */
    method CloseDelegate()
      requires delegate.packetConn.Valid() && state != delegate.packetConn.state
      modifies this`closeReturned, delegate.packetConn, delegate.packetConn.state
      ensures Abs() == OnConn(old(Abs()), Step.Close).(closeReturned := true)
    {
      hide PendingOk, Apply;
      delegate.packetConn.BeginClose();
      closeReturned := true;
    }

    // ----- _read_loop, cut at its suspension points -----

    /** The except and finally clauses. */
    method LeaveLoop(reason: EndReason)
      requires state != delegate.packetConn.state
      modifies this, state`error
      ensures Abs() == EndTask(old(Abs()), reason)
    {
      if !reason.WasCancelled? {
        state.MarkError(OtherError(0));
      }
      queueShut := true;
      readTask := Ended(reason);
    }

    /** `while True: cmd = await self.delegate.receive_command()`, up to the wait for a packet. */
    method AwaitCommand()
      requires state != delegate.packetConn.state
      modifies this, state`error
      ensures Abs() == NextReceive(old(Abs()))
    {
      var check := delegate.packetConn.state.Check();
      if check.Fail? {
        LeaveLoop(Refused);
      }
    }

    /** The first step of the read task; when cancelled before it, the body is never entered. */
    method BeginReadLoop()
      requires Valid() && LoopEnabled(Abs(), TaskBegins)
      modifies this, state`error
      ensures Abs() == LoopApply(old(Abs()), TaskBegins) && Valid()
    {
      hide LoopInv, NextReceive, Broken;
      StepKeepsLoopInv(Abs(), TaskBegins);
      if cancelAsked {
        readTask := NeverRan;
        return;
      }
      readTask := Running;
      AwaitCommand();
    }

    /** get_command_class and cmd_cls.from_bytes; `others` stands for the classes outside the model. */
    method Decode(p: JdwpPacket, others: bool) returns (ok: bool)
      requires p.CommandPacket?
      ensures ok == Decodes(delegate.spec, p, others)
    {
      var cmd := Commands.FromBytes(delegate.spec, p.commandSet, p.command, p.data);
      ok := match cmd case Ok(_) => true case Err(e) => e.OutsideModel? && others;
    }

    /** A packet came; a command goes through the registry and its decoder, which may raise. */
    method OnPacket(p: JdwpPacket, others: bool) returns (cmd: Option<JdwpPacket>)
      requires Valid() && LoopEnabled(Abs(), PacketArrives(p, others))
      modifies this, state`error, delegate.packetConn
      ensures Abs() == LoopApply(old(Abs()), PacketArrives(p, others)) && Valid()
      ensures cmd == if p.CommandPacket? && Decodes(delegate.spec, p, others) then Some(p) else None
    {
      hide LoopInv, ClientInv, Decodes, LoopApply, OnConn, EndTask;
      ArrivalApplies(Abs(), p, others);
      StepKeepsLoopInv(Abs(), PacketArrives(p, others));
      ConnTableOk(Abs());
      cmd := DeliverPacket(p);
      if cmd.Some? {
        var decodes := Decode(p, others);
        if !decodes {
          LeaveLoop(DecodeFailed(p, delegate.spec));
          return None;
        }
      }
      hand := if cmd.Some? then cmd else hand;
    }

    /** `await self._incoming_commands.put(cmd)` and back to the head of the loop. */
    method PutCommand(cmd: JdwpPacket)
      requires Valid() && LoopEnabled(Abs(), LoopStep.Put) && hand == Some(cmd)
      modifies this, state`error
      ensures Abs() == LoopApply(old(Abs()), LoopStep.Put) && Valid()
    {
      hide LoopInv, NextReceive, Broken;
      StepKeepsLoopInv(Abs(), LoopStep.Put);
      incomingCommands := incomingCommands + [cmd];
      hand := None;
      AwaitCommand();
    }

    method OnReceiveError(code: nat)
      requires Valid() && LoopEnabled(Abs(), ReceiveFails(code))
      modifies this, state`error, delegate.packetConn, delegate.packetConn.state
      ensures Abs() == LoopApply(old(Abs()), ReceiveFails(code)) && Valid()
    {
      hide LoopInv, Decodes, Apply, ClientApply, OnConn, StartTask, EndTask, NextReceive, Broken;
      StepKeepsLoopInv(Abs(), ReceiveFails(code));
      ConnTableOk(Abs());
      FailReceive(OtherError(code));
      LeaveLoop(ReceiveFailed);
    }

    /** CancelledError is thrown into the body, either in the wait for a packet or in the put. */
    method OnCancelled(inReceive: bool)
      requires Valid() && LoopEnabled(Abs(), CancelReachesTask) && inReceive == hand.None?
      modifies this, state`error, delegate.packetConn, delegate.packetConn.state
      ensures Abs() == LoopApply(old(Abs()), CancelReachesTask) && Valid()
    {
      hide LoopInv, Decodes, Apply, ClientApply, OnConn, StartTask, EndTask, NextReceive, Broken;
      StepKeepsLoopInv(Abs(), CancelReachesTask);
      ConnTableOk(Abs());
      if inReceive {
        FailReceive(CancelledError);
      }
      LeaveLoop(WasCancelled);
    }

    // ----- the callers' side -----

    /** receive_command: None when the caller suspends on the empty queue. */
    method ReceiveCommand() returns (r: Option<Result<JdwpPacket>>)
      requires Valid()
      modifies this
      ensures Valid()
      ensures var was := StartTask(old(Abs()));
              if was.queue != [] then
                r == Some(Ok(was.queue[0])) && Abs() == LoopApply(was, LoopStep.Take)
              else
                Abs() == was && r == if was.shut then Some(Err(RuntimeError)) else None
    {
      hide LoopInv;
      Start();
      if incomingCommands == [] {
        return if queueShut then Some(Err(RuntimeError)) else None;
      }
      StepKeepsLoopInv(Abs(), LoopStep.Take);
      var cmd := incomingCommands[0];
      delivered := delivered + [cmd];
      incomingCommands := incomingCommands[1..];
      return Some(Ok(cmd));
    }

    /** send_command up to its first suspension. */
    method BeginSendCommand(commandSet: int, command: int, payload: Result<bytes>, hasResponse: bool)
      returns (r: Result<(JdwpPacket, Option<nat>)>)
      requires Valid()
      modifies this, delegate`nextPacketId, delegate`asked, delegate.packetConn
      ensures Valid()
      ensures Abs() == LoopApply(old(Abs()), SendStep(commandSet, command, payload.Ok? && hasResponse))
      ensures old(state.closed || state.error.Some?) ==> r == Err(RuntimeError)
      ensures r.Ok? <==>
                && payload.Ok? && !old(state.closed || state.error.Some?)
                && (hasResponse ==> !Broken(old(delegate.packetConn.Abs())))
      ensures r.Ok? ==>
                && r.value.0 == CommandPacket(old(delegate.nextPacketId), 0, payload.value, commandSet, command)
                && r.value.1 == if hasResponse then Some(|old(delegate.packetConn.futures)|) else None
    {
      hide LoopInv, ClientInv, LoopApply, ClientApply, Broken, SendingStep;
      SendApplies(Abs(), SendingStep(commandSet, command, payload.Ok? && hasResponse));
      StepKeepsLoopInv(Abs(), SendStep(commandSet, command, payload.Ok? && hasResponse));
      ConnTableOk(Abs());
      Start();
      r := SendIfOpen(commandSet, command, payload, hasResponse);
    }

    /** `self._state.mark_closed()` */
    method MarkClosed()
      requires state != delegate.packetConn.state
      modifies state`closed
      ensures Abs() == old(Abs()).(closed := true)
    {
      state.MarkClosed();
    }

    /** `self._read_task.cancel()` and the wait for the task. */
    method AwaitEnd()
      modifies this`cancelAsked, this`closing
      ensures Abs() == old(Abs()).(cancelAsked := true, closing := old(closing) + 1)
    {
      cancelAsked := true;
      closing := closing + 1;
    }

    /** close() up to the wait for the read task; true when it must wait. */
    method BeginClose() returns (waits: bool)
      requires Valid()
      modifies this, state, delegate.packetConn, delegate.packetConn.state
      ensures Abs() == LoopApply(old(Abs()), CloseBegins) && Valid()
      ensures waits <==> old(readTask.Created? || readTask.Running?)
    {
      hide LoopInv, ClientInv, PendingOk, LoopApply, OnConn;
      CloseApplies(Abs());
      StepKeepsLoopInv(Abs(), CloseBegins);
      ConnTableOk(Abs());
      waits := readTask.Created? || readTask.Running?;
      MarkClosed();
      if waits {
        AwaitEnd();
      } else {
        CloseDelegate();
      }
    }

    /** close() after the wait. */
    method ResumeClose()
      requires Valid() && LoopEnabled(Abs(), CloseResumes)
      modifies this, delegate.packetConn, delegate.packetConn.state
      ensures Abs() == LoopApply(old(Abs()), CloseResumes) && Valid()
    {
      hide LoopInv, ClientInv, PendingOk, Decodes, Apply, ClientApply, OnConn, StartTask, EndTask, NextReceive, Broken;
      StepKeepsLoopInv(Abs(), CloseResumes);
      ConnTableOk(Abs());
      CloseDelegate();
      closing := closing - 1;
    }
  }
}
