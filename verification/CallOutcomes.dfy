/** How calls of send_command_packet end (connection.py): what each event makes of a call that waits. */
module CallOutcomes {
  import opened Results
  import opened Packet
  import opened Multiplexer

  /** What the call does next of its own: come back from the send, or from the future. */
  function OwnStep(s: State, h: nat): Step
    requires h < |s.requests|
  {
    if s.requests[h].phase.Sending? then SendDone(h) else Resume(h)
  }

  /** The call's own next step is possible, ends it like this, and leaves no entry at its id. */
  predicate EndsWith(s: State, h: nat, ending: Ending)
    requires h < |s.requests|
  {
    && Enabled(s, OwnStep(s, h))
    && var t := Apply(s, OwnStep(s, h));
       && h < |t.requests| && t.requests[h].phase == Finished(ending)
       && s.requests[h].id !in t.pending
  }

  predicate IsAwaiting(s: State, h: nat) {
    h < |s.requests| && s.requests[h].phase.Awaiting?
  }

  /** An admitted call is sending, waits, and is the entry at its id. */
  lemma AdmittedCallWaits(s: State, id: nat)
    requires Inv(s) && !Broken(s) && id !in s.pending
    ensures var t := Apply(s, Register(id));
            var h := |s.requests|;
            && |t.requests| == h + 1 && t.requests[h].phase.Sending? && t.requests[h].id == id
            && Waiting(t, h) && t.pending == s.pending[id := h]
  {
  }

  /** A refused call leaves everything as it is. */
  lemma RefusedCallChangesNothing(s: State, id: nat)
    requires Broken(s) || id in s.pending
    ensures Apply(s, Register(id)) == s
  {
  }

  /** A completed send leaves the call waiting for its reply. */
  lemma SentCallAwaits(s: State, h: nat)
    requires Inv(s) && Waiting(s, h) && s.requests[h].phase.Sending?
    ensures Enabled(s, SendDone(h))
    ensures var t := Apply(s, SendDone(h));
            IsAwaiting(t, h) && Waiting(t, h) && t.pending == s.pending && t.futures == s.futures
  {
  }

  /** A send that raises ends its call, without an entry, and touches no future. */
  lemma FailedSendEnds(s: State, h: nat)
    requires Inv(s) && h < |s.requests| && s.requests[h].phase.Sending?
    ensures Enabled(s, SendRaised(h))
    ensures var t := Apply(s, SendRaised(h));
            && t.requests[h].phase == Finished(RaisedBySend) && s.requests[h].id !in t.pending
            && t.futures == s.futures
  {
  }

  /** A waiting call gets its reply. */
  lemma ReplyEnds(s: State, h: nat, p: JdwpPacket)
    requires Inv(s) && Waiting(s, h) && IsReplyTo(p, s.requests[h].id)
    ensures EndsWith(Apply(s, Arrive(p)), h, Returned(p))
  {
  }

  /** A command packet is handed on and concerns no call. */
  lemma CommandsPassBy(s: State, p: JdwpPacket)
    requires p.CommandPacket?
    ensures Apply(s, Arrive(p)) == s.(received := s.received + [p])
  {
  }

  /** Every waiting call is told that receiving failed, or is cancelled along with the receiver. */
  lemma FailureEnds(s: State, h: nat, cause: Cause)
    requires Inv(s) && Waiting(s, h)
    ensures EndsWith(Apply(s, ReceiveRaised(cause)), h,
                     if cause.CancelledError? then RaisedCancelled else RaisedFailure(cause))
  {
    assert Listed(s.pending, h);
  }

  /** Every waiting call is cancelled by close(). */
  lemma CloseEnds(s: State, h: nat)
    requires Inv(s) && Waiting(s, h)
    ensures EndsWith(Apply(s, Step.Close), h, RaisedCancelled)
  {
    assert Listed(s.pending, h);
  }

  /** A call that awaits its future can be cancelled at any time, whether the future is done or not. */
  lemma CancellationEnds(s: State, h: nat)
    requires Inv(s) && IsAwaiting(s, h)
    ensures Enabled(s, CancelRequester(h))
    ensures EndsWith(Apply(s, CancelRequester(h)), h, RaisedCancelled)
    ensures forall k: nat | k != h && k < |s.futures| :: Apply(s, CancelRequester(h)).futures[k] == s.futures[k]
  {
  }

  /** A call ends as its done future says, unless it was cancelled after that. */
  lemma EndsAsFutureSays(s: State, h: nat, ending: Ending)
    requires Unfinished(s, h) && h < |s.futures|
    ensures EndsWith(s, h, ending) <==>
              && !s.futures[h].Undone?
              && ending == if s.requests[h].phase.Awaiting? && s.requests[h].cancelRequested then RaisedCancelled
                           else EndingOf(s.futures[h])
  {
  }

  lemma OthersLeaveCall(s: State, h: nat, st: Step)
    requires Enabled(s, st) && Unfinished(s, h) && |s.futures| == |s.requests| && !s.futures[h].Undone?
    requires st != OwnStep(s, h) && st != SendRaised(h) && st != CancelRequester(h)
    ensures h < |Apply(s, st).requests| && Apply(s, st).requests[h] == s.requests[h]
  {
  }

  /** Nothing but the call itself, or its cancellation, changes how it ends. */
  lemma OutcomeStays(s: State, h: nat, ending: Ending, st: Step)
    requires Inv(s) && Enabled(s, st) && Unfinished(s, h) && EndsWith(s, h, ending)
    requires st != OwnStep(s, h) && st != SendRaised(h) && st != CancelRequester(h)
    ensures Unfinished(Apply(s, st), h) && EndsWith(Apply(s, st), h, ending)
  {
    EndsAsFutureSays(s, h, ending);
    StepExtends(s, st);
    OthersLeaveCall(s, h, st);
    EndsAsFutureSays(Apply(s, st), h, ending);
    hide Apply, EndsWith, Inv, Enabled;
  }

  /** The first error is kept, and a failed or closed connection admits no call. */
  lemma FailureIsRecorded(s: State, st: Step, id: nat)
    requires Enabled(s, st)
    ensures s.error.Some? ==> Apply(s, st).error == s.error
    ensures st.ReceiveRaised? && s.error.None? ==> Apply(s, st).error == Some(st.cause)
    ensures Apply(s, st).closed <==> s.closed || st.Close?
    ensures st.ReceiveRaised? || st.Close? ==> !Admits(Apply(s, st), id)
    ensures !st.ReceiveRaised? && !st.Close? ==> Apply(s, st).error == s.error
  {
  }
}
