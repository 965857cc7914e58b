/**
  * JdwpPacketConnection (connection.py): the code of each step, on the fields it updates in place,
  * proved to be the step of the transition system.
  */
module PacketConnection {
  import opened Results
  import opened Packet
  import opened Multiplexer

  class ConnectionState {
    var closed: bool
    var error: Option<Cause>

    constructor ()
      ensures !closed && error == None
    {
      closed := false;
      error := None;
    }

    method MarkClosed()
      modifies this`closed
      ensures closed
    {
      closed := true;
    }

    /** The first error wins. */
    method MarkError(cause: Cause)
      modifies this`error
      ensures error == if old(error).None? then Some(cause) else old(error)
    {
      if error.None? {
        error := Some(cause);
      }
    }

    method Check() returns (r: Outcome)
      ensures r.Pass? <==> !closed && error.None?
    {
      if closed || error.Some? {
        return Fail(RuntimeError);
      }
      return Pass;
    }
  }

  class JdwpPacketConnection {
    const state: ConnectionState
    /** `_pending_replies`: packet id to future. */
    var pending: map<nat, nat>
    /** The futures created so far; a future is named by its index. */
    var futures: seq<Future>
    /** The suspended and finished calls of send_command_packet, and the packets that arrived. */
    ghost var requests: seq<Request>
    ghost var received: seq<JdwpPacket>
    ghost var answeredBy: map<nat, nat>

    ghost function Abs(): State
      reads this, state
    {
      State(state.closed, state.error, pending, futures, requests, received, answeredBy)
    }

    ghost predicate Valid()
      reads this, state
    {
      PendingOk(Abs())
    }

    constructor ()
      ensures Valid() && Abs() == INITIAL && fresh(state)
    {
      state := new ConnectionState();
      pending := map[];
      futures := [];
      requests := [];
      received := [];
      answeredBy := map[];
    }

    // asyncio.Future: set_result and set_exception raise InvalidStateError on a done future.

    method SetResult(h: nat, reply: JdwpPacket)
      requires h < |futures| && futures[h].Undone?
      modifies this`futures
      ensures futures == old(futures)[h := Resolved(reply)]
    {
      futures := futures[h := Resolved(reply)];
    }

    method SetException(h: nat, cause: Cause)
      requires h < |futures| && futures[h].Undone?
      modifies this`futures
      ensures futures == old(futures)[h := Failed(cause)]
    {
      futures := futures[h := Failed(cause)];
    }

    method CancelFuture(h: nat)
      requires h < |futures|
      modifies this`futures
      ensures futures == if old(futures)[h].Undone? then old(futures)[h := Cancelled] else old(futures)
    {
      if futures[h].Undone? {
        futures := futures[h := Cancelled];
      }
    }

    /** Empties the table and returns the futures in it that were not done, each once. */
    method ClearPendingReplies() returns (unresolved: seq<nat>)
      requires EntriesOk(Abs())
      modifies this`pending
      ensures pending == map[]
      ensures forall h: nat :: h in unresolved <==>
                Listed(old(pending), h) && h < |futures| && futures[h].Undone?
      ensures forall i, j | 0 <= i < j < |unresolved| :: unresolved[i] != unresolved[j]
    {
      unresolved := [];
      var items := pending.Items;
      while items != {}
        invariant items <= pending.Items
        invariant forall h: nat :: h in unresolved <==>
                    h < |futures| && futures[h].Undone?
                    && exists id | id in pending :: (id, h) !in items && pending[id] == h
        invariant forall i, j | 0 <= i < j < |unresolved| :: unresolved[i] != unresolved[j]
      {
        var item :| item in items;
        assert item.0 in pending && pending[item.0] == item.1;
        if futures[item.1].Undone? {
          unresolved := unresolved + [item.1];
        }
        items := items - {item};
      }
      pending := map[];
    }

    /** `for fut in self._clear_pending_replies(): fut.set_exception(e)` or `fut.cancel()`. */
    method SettlePending(outcome: Future)
      requires EntriesOk(Abs()) && (outcome.Failed? || outcome.Cancelled?)
      modifies this`pending, this`futures
      ensures pending == map[] && futures == Settle(old(futures), old(pending), outcome)
    {
      var unresolved := ClearPendingReplies();
      for i := 0 to |unresolved|
        invariant pending == map[] && |futures| == |old(futures)|
        invariant forall h: nat | h < |futures| ::
                    futures[h] == if h in unresolved[..i] then outcome else old(futures)[h]
      {
        var h := unresolved[i];
        assert h in unresolved && h !in unresolved[..i];
        if outcome.Failed? {
          SetException(h, outcome.cause);
        } else {
          CancelFuture(h);
        }
      }
      assert unresolved[..|unresolved|] == unresolved;
      ghost var settled := Settle(old(futures), old(pending), outcome);
      assert forall h | 0 <= h < |settled| :: futures[h] == settled[h];
      assert futures == settled;
    }

    // ----- receive_command -----

    /** One iteration of the loop in receive_command: a command packet ends the loop. */
    method HandlePacket(packet: JdwpPacket) returns (r: Option<JdwpPacket>)
      requires Valid()
      modifies this
      ensures Abs() == Apply(old(Abs()), Arrive(packet))
      ensures r == if packet.CommandPacket? then Some(packet) else None
    {
      received := received + [packet];
      if packet.ReplyPacket? {
        if packet.id in pending {
          var future := pending[packet.id];
          pending := pending - {packet.id};
          if futures[future].Undone? {
            SetResult(future, packet);
            answeredBy := answeredBy[future := |received| - 1];
          }
        }
        return None;
      }
      return Some(packet);
    }

    /** The except clauses of receive_command. */
    method HandleReceiveError(cause: Cause)
      requires Valid()
      modifies this, state
      ensures Abs() == Apply(old(Abs()), ReceiveRaised(cause)) && Valid()
    {
      state.MarkError(cause);
      SettlePending(if cause.CancelledError? then Cancelled else Failed(cause));
    }

    // ----- send_command_packet, cut at its two suspension points -----

    /** Up to `await self.sender.send(packet)`; the result is the new future. */
    method BeginSend(packet: JdwpPacket) returns (r: Result<nat>)
      requires Valid()
      modifies this
      ensures Abs() == Apply(old(Abs()), Register(packet.id)) && Valid()
      ensures r == if Admits(old(Abs()), packet.id) then Ok(|old(futures)|) else Err(RuntimeError)
    {
      var check := state.Check();
      if check.Fail? || packet.id in pending {
        return Err(RuntimeError);
      }
      var future := |futures|;
      futures := futures + [Undone];
      pending := pending[packet.id := future];
      requests := requests + [Request(packet.id, |received|, Sending, false)];
      return Ok(future);
    }

    /** The `finally`. */
    method PopOwnId(id: nat, ghost h: nat, ghost ending: Ending)
      requires Valid() && h < |requests| && requests[h].id == id
      modifies this`pending, this`requests
      ensures Abs() == Finish(old(Abs()), h, ending)
    {
      pending := pending - {id};
      requests := requests[h := requests[h].(phase := Finished(ending))];
    }

    /** After the send: the future may be done already; otherwise the call suspends on it. */
    method AfterSend(h: nat, id: nat) returns (r: Option<Ending>)
      requires Valid() && Enabled(Abs(), SendDone(h)) && requests[h].id == id
      modifies this
      ensures Abs() == Apply(old(Abs()), SendDone(h))
      ensures r == if old(futures)[h].Undone? then None else Some(EndingOf(old(futures)[h]))
    {
      if futures[h].Undone? {
        requests := requests[h := requests[h].(phase := Awaiting)];
        return None;
      }
      PopOwnId(id, h, EndingOf(futures[h]));
      return Some(EndingOf(futures[h]));
    }

    method AfterSendRaised(h: nat, id: nat)
      requires Valid() && Enabled(Abs(), SendRaised(h)) && requests[h].id == id
      modifies this
      ensures Abs() == Apply(old(Abs()), SendRaised(h))
    {
      PopOwnId(id, h, RaisedBySend);
    }

    /** After `await future`; a cancellation that came after the future was done wins. */
    method AfterFuture(h: nat, id: nat, cancelled: bool) returns (r: Ending)
      requires Valid() && Enabled(Abs(), Resume(h))
      requires requests[h].id == id && requests[h].cancelRequested == cancelled
      modifies this
      ensures Abs() == Apply(old(Abs()), Resume(h))
      ensures r == if cancelled then RaisedCancelled else EndingOf(old(futures)[h])
    {
      r := if cancelled then RaisedCancelled else EndingOf(futures[h]);
      PopOwnId(id, h, r);
    }

    /** Task.cancel() on a task suspended in `await future`. */
    method CancelAwaiting(h: nat)
      requires Valid() && Enabled(Abs(), CancelRequester(h))
      modifies this
      ensures Abs() == Apply(old(Abs()), CancelRequester(h))
    {
      if futures[h].Undone? {
        CancelFuture(h);
      } else {
        requests := requests[h := requests[h].(cancelRequested := true)];
      }
    }

    /** close(), before it closes the streams. */
    method BeginClose()
      requires Valid()
      modifies this, state
      ensures Abs() == Apply(old(Abs()), Step.Close) && Valid()
    {
      state.MarkClosed();
      SettlePending(Cancelled);
    }
  }
}
