/**
  * The request/reply multiplexer of connection.py as a transition system. Each step is the code that
  * runs between two suspension points (await) of one of the tasks sharing the connection.
  */
module Multiplexer {
  import opened Results
  import opened Packet

  /** An exception that ended a receive: a cancellation, or anything else. */
  datatype Cause = CancelledError | OtherError(code: nat)

  /** An asyncio future. Once it is not Undone it is done, and stays as it is. */
  datatype Future = Undone | Resolved(reply: JdwpPacket) | Failed(cause: Cause) | Cancelled

  /** How a call of send_command_packet ended. */
  datatype Ending = Returned(reply: JdwpPacket) | RaisedFailure(cause: Cause) | RaisedCancelled | RaisedBySend

  datatype Phase = Sending | Awaiting | Finished(ending: Ending)

  /**
    * One registered call of send_command_packet: its packet id, how many packets had been received when
    * it registered, where it is suspended, and whether its task was cancelled after its future was done.
    */
  datatype Request = Request(id: nat, since: nat, phase: Phase, cancelRequested: bool)

  /**
    * A future is named by the number of the request that created it. `received` and `answeredBy` are
    * history: all packets the receiver returned, and which of them resolved which future.
    */
  datatype State = State(
    closed: bool,
    error: Option<Cause>,
    pending: map<nat, nat>,
    futures: seq<Future>,
    requests: seq<Request>,
    received: seq<JdwpPacket>,
    answeredBy: map<nat, nat>)

  const INITIAL := State(false, None, map[], [], [], [], map[])

  datatype Step =
    | Register(id: nat)          // send_command_packet up to its first suspension
    | SendDone(h: nat)           // sender.send returned
    | SendRaised(h: nat)         // sender.send raised, or was cancelled
    | CancelRequester(h: nat)    // the requester awaiting the future is cancelled
    | Resume(h: nat)             // the requester awaiting a done future runs to its end
    | Arrive(p: JdwpPacket)      // receiver.receive returned a packet
    | ReceiveRaised(cause: Cause)
    | Close

  predicate Broken(s: State) {
    s.closed || s.error.Some?
  }

  predicate Unfinished(s: State, h: nat) {
    h < |s.requests| && !s.requests[h].phase.Finished?
  }

  predicate Waiting(s: State, h: nat) {
    Unfinished(s, h) && h < |s.futures| && s.futures[h].Undone?
  }

  /** The checks that send_command_packet makes before it registers. */
  predicate Admits(s: State, id: nat) {
    !Broken(s) && id !in s.pending
  }

  predicate Enabled(s: State, st: Step) {
    match st
    case SendDone(h) => h < |s.requests| && h < |s.futures| && s.requests[h].phase.Sending?
    case SendRaised(h) => h < |s.requests| && s.requests[h].phase.Sending?
    case CancelRequester(h) => h < |s.requests| && h < |s.futures| && s.requests[h].phase.Awaiting?
    case Resume(h) =>
      h < |s.requests| && h < |s.futures| && s.requests[h].phase.Awaiting? && !s.futures[h].Undone?
    case _ => true
  }

  /** `return await future` on a done future. */
  function EndingOf(f: Future): Ending
    requires !f.Undone?
  {
    match f
    case Resolved(p) => Returned(p)
    case Failed(c) => RaisedFailure(c)
    case Cancelled => RaisedCancelled
  }

  /** The `finally` of send_command_packet. */
  function Finish(s: State, h: nat, ending: Ending): State
    requires h < |s.requests|
  {
    s.(requests := s.requests[h := s.requests[h].(phase := Finished(ending))],
       pending := s.pending - {s.requests[h].id})
  }

  predicate Listed(pending: map<nat, nat>, h: nat) {
    exists id | id in pending :: pending[id] == h
  }

  /** Every undone future that is still pending gets the outcome f. */
  function Settle(futures: seq<Future>, pending: map<nat, nat>, f: Future): (r: seq<Future>)
    ensures |r| == |futures|
  {
    seq(|futures|, h requires 0 <= h < |futures| =>
      if Listed(pending, h) && futures[h].Undone? then f else futures[h])
  }

  function Apply(s: State, st: Step): State
    requires Enabled(s, st)
  {
    match st
    case Register(id) =>
      if Admits(s, id) then
        s.(pending := s.pending[id := |s.futures|],
           futures := s.futures + [Undone],
           requests := s.requests + [Request(id, |s.received|, Sending, false)])
      else s
    case SendDone(h) =>
      if s.futures[h].Undone? then s.(requests := s.requests[h := s.requests[h].(phase := Awaiting)])
      else Finish(s, h, EndingOf(s.futures[h]))
    case SendRaised(h) => Finish(s, h, RaisedBySend)
    case CancelRequester(h) =>
      if s.futures[h].Undone? then s.(futures := s.futures[h := Cancelled])
      else s.(requests := s.requests[h := s.requests[h].(cancelRequested := true)])
    case Resume(h) =>
      Finish(s, h, if s.requests[h].cancelRequested then RaisedCancelled else EndingOf(s.futures[h]))
    case Arrive(p) =>
      var s' := s.(received := s.received + [p]);
      if p.CommandPacket? || p.id !in s.pending then s'
      else
        var h := s.pending[p.id];
        var s'' := s'.(pending := s.pending - {p.id});
        if h < |s.futures| && s.futures[h].Undone? then
          s''.(futures := s.futures[h := Resolved(p)], answeredBy := s.answeredBy[h := |s.received|])
        else s''
    case ReceiveRaised(c) =>
      s.(error := if s.error.None? then Some(c) else s.error,
         futures := Settle(s.futures, s.pending, if c.CancelledError? then Cancelled else Failed(c)),
         pending := map[])
    case Close =>
      s.(closed := true,
         futures := Settle(s.futures, s.pending, Cancelled),
         pending := map[])
  }

  // ----- invariants -----

  /** `_pending_replies` holds unfinished requests at their own ids. */
  ghost predicate EntriesOk(s: State) {
    && |s.futures| == |s.requests|
    && (forall id | id in s.pending :: Unfinished(s, s.pending[id]) && s.requests[s.pending[id]].id == id)
  }

  ghost predicate PendingOk(s: State) {
    && EntriesOk(s)
    && (forall h: nat | h < |s.requests| :: s.requests[h].since <= |s.received|)
    && (Broken(s) ==> s.pending == map[])
  }

  /** No two unfinished requests carry the same id. */
  ghost predicate DistinctIds(s: State) {
    forall h, k | 0 <= h < k < |s.requests| && Unfinished(s, h) && Unfinished(s, k) ::
      s.requests[h].id != s.requests[k].id
  }

  /** A request whose future is undone is the entry at its id: nobody waits without an entry. */
  ghost predicate NoneStranded(s: State) {
    forall h: nat | Waiting(s, h) :: s.requests[h].id in s.pending && s.pending[s.requests[h].id] == h
  }

  predicate IsReplyTo(p: JdwpPacket, id: nat) {
    p.ReplyPacket? && p.id == id
  }

  /** A recorded answer is a reply with the request's id, received after it registered. */
  ghost predicate AnswersOk(s: State) {
    forall h | h in s.answeredBy ::
      && h < |s.requests| && h < |s.futures|
      && s.requests[h].since <= s.answeredBy[h] < |s.received|
      && IsReplyTo(s.received[s.answeredBy[h]], s.requests[h].id)
      && s.futures[h] == Resolved(s.received[s.answeredBy[h]])
  }

  /** Every resolved future has a recorded answer, and no packet answers two requests. */
  ghost predicate AnswersComplete(s: State) {
    && (forall h: nat | h < |s.futures| && s.futures[h].Resolved? :: h in s.answeredBy)
    && (forall h, k | h in s.answeredBy && k in s.answeredBy && h != k :: s.answeredBy[h] != s.answeredBy[k])
  }

  /** A request that returned a reply returned its recorded answer. */
  ghost predicate EndingsOk(s: State) {
    forall h: nat | h < |s.requests| ::
      s.requests[h].phase.Finished? && s.requests[h].phase.ending.Returned? ==>
        && h in s.answeredBy && s.answeredBy[h] < |s.received|
        && s.requests[h].phase.ending == Returned(s.received[s.answeredBy[h]])
  }

  ghost predicate Correlated(s: State) {
    AnswersOk(s) && AnswersComplete(s) && EndingsOk(s)
  }

  /** None of the packets from number `from` up to number `to` is a reply with this id. */
  ghost predicate NoReplyIn(received: seq<JdwpPacket>, from: nat, to: nat, id: nat) {
    forall j: nat | from <= j < to && j < |received| :: !IsReplyTo(received[j], id)
  }

  /** The first reply with its id that came after a request registered is the one it got. */
  ghost predicate Prompt(s: State) {
    && (forall h | h in s.answeredBy && h < |s.requests| ::
          NoReplyIn(s.received, s.requests[h].since, s.answeredBy[h], s.requests[h].id))
    && (forall h: nat | Waiting(s, h) ::
          NoReplyIn(s.received, s.requests[h].since, |s.received|, s.requests[h].id))
  }

  /** A cancellation is remembered only for a call whose future was done already. */
  ghost predicate LateCancelsOnly(s: State) {
    forall h: nat | h < |s.requests| && h < |s.futures| && s.requests[h].cancelRequested :: !s.futures[h].Undone?
  }

  /** The part of the invariant that is about the table of pending replies. */
  ghost predicate TableOk(s: State) {
    PendingOk(s) && DistinctIds(s) && NoneStranded(s) && LateCancelsOnly(s)
  }

  ghost predicate Inv(s: State) {
    TableOk(s) && Correlated(s) && Prompt(s)
  }

  /** The step does not register an id that an unfinished request still carries. */
  ghost predicate Fresh(s: State, st: Step) {
    st.Register? && Admits(s, st.id) ==>
      forall h: nat | Unfinished(s, h) :: s.requests[h].id != st.id
  }

  lemma RegisterKeepsTable(s: State, id: nat)
    requires TableOk(s) && Fresh(s, Register(id))
    ensures TableOk(Apply(s, Register(id)))
  {
  }

  lemma FinishKeepsTable(s: State, h: nat, ending: Ending)
    requires TableOk(s) && Unfinished(s, h)
    ensures TableOk(Finish(s, h, ending))
  {
  }

  lemma AwaitOrCancelKeepsTable(s: State, st: Step)
    requires TableOk(s) && Enabled(s, st)
    requires st.CancelRequester? || (st.SendDone? && s.futures[st.h].Undone?)
    ensures TableOk(Apply(s, st))
  {
  }

  lemma ArrivalKeepsTable(s: State, p: JdwpPacket)
    requires TableOk(s)
    ensures TableOk(Apply(s, Arrive(p)))
  {
  }

  lemma SettleKeepsTable(s: State, st: Step)
    requires TableOk(s) && (st.ReceiveRaised? || st.Close?)
    ensures TableOk(Apply(s, st))
  {
  }

  lemma StepKeepsTable(s: State, st: Step)
    requires TableOk(s) && Enabled(s, st) && Fresh(s, st)
    ensures TableOk(Apply(s, st))
  {
    hide TableOk, Settle, Fresh;
    match st {
      case Register(id) => RegisterKeepsTable(s, id);
      case Arrive(p) => ArrivalKeepsTable(s, p);
      case ReceiveRaised(_) => SettleKeepsTable(s, st);
      case Close => SettleKeepsTable(s, st);
      case CancelRequester(_) => AwaitOrCancelKeepsTable(s, st);
      case SendRaised(h) => FinishKeepsTable(s, h, RaisedBySend);
      case Resume(h) =>
        FinishKeepsTable(s, h, if s.requests[h].cancelRequested then RaisedCancelled else EndingOf(s.futures[h]));
      case SendDone(h) =>
        if s.futures[h].Undone? {
          AwaitOrCancelKeepsTable(s, st);
        } else {
          FinishKeepsTable(s, h, EndingOf(s.futures[h]));
        }
    }
  }

  /** What no step undoes: packets received, requests registered, futures done. */
  ghost predicate Extends(s: State, t: State) {
    RequestsExtend(s, t) && FuturesExtend(s, t) && (Broken(s) ==> Broken(t))
  }

  ghost predicate RequestsExtend(s: State, t: State) {
    && |s.requests| <= |t.requests|
    && (forall h: nat | h < |s.requests| ::
          && t.requests[h].id == s.requests[h].id && t.requests[h].since == s.requests[h].since
          && (s.requests[h].phase.Finished? ==> t.requests[h].phase == s.requests[h].phase))
  }

  ghost predicate FuturesExtend(s: State, t: State) {
    && s.received <= t.received
    && |s.futures| <= |t.futures|
    && (forall h: nat | h < |s.futures| && !s.futures[h].Undone? :: t.futures[h] == s.futures[h])
    && (forall h | h in s.answeredBy :: h in t.answeredBy && t.answeredBy[h] == s.answeredBy[h])
  }

  lemma StepExtendsRequests(s: State, st: Step)
    requires PendingOk(s) && Enabled(s, st)
    ensures RequestsExtend(s, Apply(s, st))
  {
  }

  lemma StepExtendsFutures(s: State, st: Step)
    requires PendingOk(s) && AnswersOk(s) && Enabled(s, st)
    ensures FuturesExtend(s, Apply(s, st))
  {
  }

  lemma StepExtends(s: State, st: Step)
    requires PendingOk(s) && AnswersOk(s) && Enabled(s, st)
    ensures Extends(s, Apply(s, st))
  {
    StepExtendsRequests(s, st);
    StepExtendsFutures(s, st);
  }

  lemma StepKeepsAnswersOk(s: State, st: Step)
    requires PendingOk(s) && AnswersOk(s) && Enabled(s, st)
    ensures AnswersOk(Apply(s, st))
  {
    StepExtends(s, st);
  }

  lemma StepKeepsAnswersComplete(s: State, st: Step)
    requires PendingOk(s) && AnswersOk(s) && AnswersComplete(s) && Enabled(s, st)
    ensures AnswersComplete(Apply(s, st))
  {
    if !st.Arrive? {
      OtherStepsPassBy(s, st);
      hide Apply;
    }
  }

  lemma StepKeepsEndingsOk(s: State, st: Step)
    requires PendingOk(s) && Correlated(s) && Enabled(s, st)
    ensures EndingsOk(Apply(s, st))
  {
    StepExtendsFutures(s, st);
    hide AnswersOk, FuturesExtend, Settle, IsReplyTo;
    var t := Apply(s, st);
    forall h: nat | h < |t.requests| && t.requests[h].phase.Finished? && t.requests[h].phase.ending.Returned?
      ensures h in t.answeredBy && t.answeredBy[h] < |t.received|
      ensures t.requests[h].phase.ending == Returned(t.received[t.answeredBy[h]])
    {
      NewEnding(s, st, h);
      AnswerStays(s, t, h);
    }
  }

  /** A call returns the reply in its future, either before this step or in it. */
  lemma NewEnding(s: State, st: Step, h: nat)
    requires PendingOk(s) && Enabled(s, st)
    requires h < |Apply(s, st).requests|
    requires Apply(s, st).requests[h].phase.Finished? && Apply(s, st).requests[h].phase.ending.Returned?
    ensures h < |s.requests|
    ensures Apply(s, st).requests[h].phase == s.requests[h].phase
            || s.futures[h] == Resolved(Apply(s, st).requests[h].phase.ending.reply)
  {
  }

  lemma AnswerStays(s: State, t: State, h: nat)
    requires AnswersOk(s) && FuturesExtend(s, t)
    ensures h in s.answeredBy ==>
              && h in t.answeredBy && t.answeredBy[h] == s.answeredBy[h] < |s.received| <= |t.received|
              && t.received[t.answeredBy[h]] == s.received[s.answeredBy[h]]
              && h < |s.futures| && s.futures[h] == Resolved(s.received[s.answeredBy[h]])
  {
  }

  /** A request that still waits after a packet arrived was not sent that packet. */
  lemma ArrivalPassesBy(s: State, p: JdwpPacket, h: nat)
    requires PendingOk(s) && NoneStranded(s) && Waiting(Apply(s, Arrive(p)), h)
    ensures Waiting(s, h) && !IsReplyTo(p, s.requests[h].id)
  {
  }

  lemma ArrivalKeepsPrompt(s: State, p: JdwpPacket)
    requires PendingOk(s) && NoneStranded(s) && AnswersOk(s) && Prompt(s)
    ensures Prompt(Apply(s, Arrive(p)))
  {
    var t := Apply(s, Arrive(p));
    forall h: nat | Waiting(t, h)
      ensures NoReplyIn(t.received, t.requests[h].since, |t.received|, t.requests[h].id)
    {
      ArrivalPassesBy(s, p, h);
      assert NoReplyIn(s.received, s.requests[h].since, |s.received|, s.requests[h].id);
    }
    forall h | h in t.answeredBy && h < |t.requests|
      ensures NoReplyIn(t.received, t.requests[h].since, t.answeredBy[h], t.requests[h].id)
    {
      if h in s.answeredBy && t.answeredBy[h] == s.answeredBy[h] {
        assert NoReplyIn(s.received, s.requests[h].since, s.answeredBy[h], s.requests[h].id);
      } else {
        assert NoReplyIn(s.received, s.requests[h].since, |s.received|, s.requests[h].id);
      }
    }
  }

  /** Any other step leaves the history alone, and only a new request can start to wait. */
  lemma OtherStepsPassBy(s: State, st: Step)
    requires PendingOk(s) && Enabled(s, st) && !st.Arrive?
    ensures var t := Apply(s, st);
            && t.received == s.received && t.answeredBy == s.answeredBy
            && (forall h: nat | Waiting(t, h) :: Waiting(s, h) || t.requests[h].since == |s.received|)
            && (forall h: nat | h < |t.futures| && t.futures[h].Resolved? ::
                  h < |s.futures| && s.futures[h].Resolved?)
  {
  }

  lemma StepKeepsPrompt(s: State, st: Step)
    requires PendingOk(s) && NoneStranded(s) && AnswersOk(s) && Prompt(s) && Enabled(s, st)
    ensures Prompt(Apply(s, st))
  {
    if st.Arrive? {
      ArrivalKeepsPrompt(s, st.p);
    } else {
      OtherStepsPassBy(s, st);
      StepExtends(s, st);
      hide Apply, Waiting;
    }
  }

  lemma StepKeepsInv(s: State, st: Step)
    requires Inv(s) && Enabled(s, st) && Fresh(s, st)
    ensures Inv(Apply(s, st))
  {
    StepKeepsTable(s, st);
    StepKeepsAnswersOk(s, st);
    StepKeepsAnswersComplete(s, st);
    StepKeepsEndingsOk(s, st);
    StepKeepsPrompt(s, st);
  }

  // ----- runs -----

  /** Every step of the run is possible when its turn comes. */
  predicate Legal(s: State, steps: seq<Step>)
    decreases |steps|
  {
    steps == [] || (Enabled(s, steps[0]) && Legal(Apply(s, steps[0]), steps[1..]))
  }

  function Run(s: State, steps: seq<Step>): State
    requires Legal(s, steps)
    decreases |steps|
  {
    if steps == [] then s else Run(Apply(s, steps[0]), steps[1..])
  }

  /** No call in the run reuses the id of a call that has not returned yet. */
  ghost predicate FreshRun(s: State, steps: seq<Step>)
    requires Legal(s, steps)
    decreases |steps|
  {
    steps == [] || (Fresh(s, steps[0]) && FreshRun(Apply(s, steps[0]), steps[1..]))
  }

  lemma {:induction false} RunKeepsInv(s: State, steps: seq<Step>)
    requires Inv(s) && Legal(s, steps) && FreshRun(s, steps)
    ensures Inv(Run(s, steps)) && Extends(s, Run(s, steps))
    decreases |steps|
  {
    if steps != [] {
      hide Inv, Extends, Apply, Enabled, Fresh;
      StepInvAndExtends(s, steps[0]);
      var mid := Apply(s, steps[0]);
      RunKeepsInv(mid, steps[1..]);
      ExtendsTransitive(s, mid, Run(mid, steps[1..]));
    } else {
      hide Inv;
    }
  }

  lemma StepInvAndExtends(s: State, st: Step)
    requires Inv(s) && Enabled(s, st) && Fresh(s, st)
    ensures Inv(Apply(s, st)) && Extends(s, Apply(s, st))
  {
    StepKeepsInv(s, st);
    StepExtends(s, st);
  }

  lemma ExtendsTransitive(s: State, t: State, u: State)
    requires Extends(s, t) && Extends(t, u)
    ensures Extends(s, u)
  {
  }

  // ----- what a requester is promised -----

  /** The pop in the `finally` removes the entry of the call that ends, and no other. */
  lemma FinallyPopsOwnEntry(s: State, st: Step, h: nat)
    requires Inv(s) && Enabled(s, st) && h < |s.requests|
    requires Unfinished(s, h) && !Unfinished(Apply(s, st), h)
    ensures forall id | id in s.pending && s.pending[id] != h ::
              id in Apply(s, st).pending && Apply(s, st).pending[id] == s.pending[id]
    ensures s.requests[h].id !in Apply(s, st).pending
  {
  }

  /** A reply to a waiting request resolves exactly that request's future. */
  lemma ReplyReachesItsRequester(s: State, h: nat, p: JdwpPacket)
    requires Inv(s) && Waiting(s, h) && IsReplyTo(p, s.requests[h].id)
    ensures var t := Apply(s, Arrive(p));
            && t.futures == s.futures[h := Resolved(p)]
            && t.pending == s.pending - {p.id}
  {
  }

  /** A reply that no request waits for changes nothing but the history (and a dead entry). */
  lemma OtherRepliesAreDropped(s: State, p: JdwpPacket)
    requires Inv(s) && p.ReplyPacket?
    requires forall h: nat | Waiting(s, h) :: s.requests[h].id != p.id
    ensures Apply(s, Arrive(p)).futures == s.futures
    ensures Apply(s, Arrive(p)).answeredBy == s.answeredBy
    ensures Apply(s, Arrive(p)).pending == s.pending - {p.id}
  {
  }

  /**
    * Reply correlation over every run: a call returns a packet only if that is the first reply with its
    * id received after it registered, and the same packet is no other call's answer.
    */
  lemma ReplyCorrelation(steps: seq<Step>, h: nat, p: JdwpPacket)
    requires Legal(INITIAL, steps) && FreshRun(INITIAL, steps)
    requires var s := Run(INITIAL, steps);
             h < |s.requests| && s.requests[h].phase == Finished(Returned(p))
    ensures var s := Run(INITIAL, steps);
            exists k: nat ::
              && s.requests[h].since <= k < |s.received| && s.received[k] == p
              && IsReplyTo(p, s.requests[h].id)
              && NoReplyIn(s.received, s.requests[h].since, k, s.requests[h].id)
              && (forall g | g in s.answeredBy && s.answeredBy[g] == k :: g == h)
  {
    hide Apply, Enabled;
    RunKeepsInv(INITIAL, steps);
    var s := Run(INITIAL, steps);
    var k := s.answeredBy[h];
    assert NoReplyIn(s.received, s.requests[h].since, k, s.requests[h].id);
  }

  /**
    * Failure completeness: once the connection is closed or has failed, nothing is pending, every
    * unfinished call's future is done, and neither changes again, whatever happens next.
    */
  lemma {:induction false} BrokenForever(s: State, steps: seq<Step>)
    requires Inv(s) && Broken(s) && Legal(s, steps)
    ensures var t := Run(s, steps);
            && Broken(t) && t.pending == map[] && |t.requests| == |s.requests|
            && (forall h: nat :: !Waiting(t, h))
    decreases |steps|
  {
    if steps != [] {
      BrokenStep(s, steps[0]);
      hide Inv, Apply, Enabled, Fresh, Broken, Waiting;
      BrokenForever(Apply(s, steps[0]), steps[1..]);
    }
  }

  lemma BrokenStep(s: State, st: Step)
    requires Inv(s) && Broken(s) && Enabled(s, st)
    ensures var t := Apply(s, st); Inv(t) && Broken(t) && |t.requests| == |s.requests|
  {
    StepInvAndExtends(s, st);
  }

  // ----- reuse of ids -----

  /** A call that waits on a future nobody can reach: no entry leads to it any more. */
  ghost predicate Orphan(s: State, h: nat) {
    Waiting(s, h) && !Listed(s.pending, h)
  }

  /** Neither replies nor failures nor close() ever end an orphan; only its own task can. */
  lemma OrphanStays(s: State, st: Step, h: nat)
    requires |s.futures| == |s.requests| && Orphan(s, h) && Enabled(s, st)
    requires st != CancelRequester(h) && st != SendRaised(h)
    ensures Orphan(Apply(s, st), h)
  {
  }

  lemma {:induction false} OrphanForever(s: State, steps: seq<Step>, h: nat)
    requires |s.futures| == |s.requests| && Orphan(s, h) && Legal(s, steps)
    requires CancelRequester(h) !in steps && SendRaised(h) !in steps
    ensures Orphan(Run(s, steps), h)
    decreases |steps|
  {
    if steps != [] {
      OrphanStays(s, steps[0], h);
      hide Orphan;
      assert |Apply(s, steps[0]).futures| == |Apply(s, steps[0]).requests|;
      OrphanForever(Apply(s, steps[0]), steps[1..], h);
    }
  }

  /**
    * When registering is safe. The code only refuses an id that is still in the table; what matters is
    * that no call that has not returned carries it, for otherwise that call's `finally` can remove the
    * new call's entry.
    */
  lemma ReuseCondition(s: State, id: nat)
    requires Inv(s) && Admits(s, id)
    ensures var t := Apply(s, Register(id));
            (forall h: nat | Unfinished(s, h) :: s.requests[h].id != id)
            <==> (forall st | Enabled(t, st) && !st.Register? :: NoneStranded(Apply(t, st)))
  {
    var t := Apply(s, Register(id));
    if h: nat :| Unfinished(s, h) && s.requests[h].id == id {
      ReuseStrands(s, id, h);
    } else {
      StepKeepsInv(s, Register(id));
      forall st | Enabled(t, st) && !st.Register?
        ensures NoneStranded(Apply(t, st))
      {
        hide Apply, Enabled;
        StepKeepsInv(t, st);
      }
    }
  }

  /** The interleaving that strands a call whose id an unfinished call h still carries. */
  lemma ReuseStrands(s: State, id: nat, h: nat)
    requires Inv(s) && Admits(s, id) && Unfinished(s, h) && s.requests[h].id == id
    ensures var t := Apply(s, Register(id));
            var st := if s.requests[h].phase.Sending? then SendDone(h) else Resume(h);
            && Enabled(t, st) && !st.Register?
            && Orphan(Apply(t, st), |s.requests|)
            && !NoneStranded(Apply(t, st))
  {
    assert !Waiting(s, h);
    var t := Apply(s, Register(id));
    var st := if s.requests[h].phase.Sending? then SendDone(h) else Resume(h);
    assert Waiting(Apply(t, st), |s.requests|);
    assert Apply(t, st).pending == s.pending;
  }

  /** The shortest such run: the second call with id 7 waits forever although nothing failed. */
  lemma ReusedIdStrandsACall()
    ensures var reply := ReplyPacket(7, 128, [], 0);
            var steps := [Register(7), SendDone(0), Arrive(reply), Register(7), Resume(0)];
            Legal(INITIAL, steps) && Orphan(Run(INITIAL, steps), 1)
  {
    var reply := ReplyPacket(7, 128, [], 0);
    var steps := [Register(7), SendDone(0), Arrive(reply), Register(7), Resume(0)];
    var s1 := Apply(INITIAL, steps[0]);
    var s2 := Apply(s1, steps[1]);
    var s3 := Apply(s2, steps[2]);
    var s4 := Apply(s3, steps[3]);
    var s5 := Apply(s4, steps[4]);
    assert Orphan(s5, 1);
    RunOne(s4, steps[4..]);
    RunOne(s3, steps[3..]);
    RunOne(s2, steps[2..]);
    RunOne(s1, steps[1..]);
    RunOne(INITIAL, steps);
  }

  lemma RunOne(s: State, steps: seq<Step>)
    requires steps != [] && Enabled(s, steps[0]) && Legal(Apply(s, steps[0]), steps[1..])
    ensures Legal(s, steps) && Run(s, steps) == Run(Apply(s, steps[0]), steps[1..])
  {
  }
}
