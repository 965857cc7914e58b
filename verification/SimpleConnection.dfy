/** SimpleJdwpConnection (connection.py): packet ids come from one counter, so none is ever reused. */
module SimpleConnection {
  import opened Results
  import opened Bytes
  import opened Spec
  import opened Io
  import opened Vm
  import opened Packet
  import opened Multiplexer
  import opened PacketConnection

  /** A reply that a call of send_command has taken up, and whether the call had asked for the ID sizes. */
  datatype TakenReply = TakenReply(call: nat, reply: JdwpPacket, idSizes: bool)

  /**
    * The fields of the client and of its packet connection. `asked` says of each registered call whether its
    * command is IDSizes; `initial` and `taken` (history) are the first spec and the replies taken up so far.
    */
  datatype Client = Client(
    nextId: nat,
    conn: State,
    spec: IdSizesSpec,
    asked: seq<bool>,
    initial: IdSizesSpec,
    taken: seq<TakenReply>)

  function NewClient(spec: IdSizesSpec): Client {
    Client(1, INITIAL, spec, [], spec, [])
  }

  datatype ClientStep =
    | SendCommand(idSizes: bool)   // send_command with a response class, up to its first suspension
    | SpendId                      // an id that registers nothing: to_bytes raised, or no response is expected
    | Other(st: Step)              // any other step of the packet connection

  predicate IsIdSizes(commandSet: int, command: int) {
    commandSet == 1 && command == 7
  }

  /** What send_command does to the client before it suspends. */
  function SendingStep(commandSet: int, command: int, registers: bool): (st: ClientStep)
    ensures !st.Other?
  {
    if registers then ClientStep.SendCommand(IsIdSizes(commandSet, command)) else SpendId
  }

  predicate ClientEnabled(c: Client, st: ClientStep) {
    st.Other? ==> !st.st.Register? && Enabled(c.conn, st.st)
  }

  /** The call that gets its reply in this step and goes on with it, without suspending again. */
  function ReturningCall(s: State, st: Step): Option<nat>
    requires Enabled(s, st)
  {
    if st.SendDone? && s.futures[st.h].Resolved? then Some(st.h)
    else if st.Resume? && s.futures[st.h].Resolved? && !s.requests[st.h].cancelRequested then Some(st.h)
    else None
  }

  /** The reply to an IDSizes command reports success and supported sizes. */
  predicate SetsSpec(t: TakenReply) {
    t.idSizes && t.reply.ReplyPacket? && t.reply.errorCode == 0 && SpecFromReply(t.reply.data).Ok?
  }

  /** The code of send_command after `await send_command_packet`, as far as it changes the client. */
  function TakeReply(c: Client, t: TakenReply): Client {
    c.(taken := c.taken + [t], spec := if SetsSpec(t) then SpecFromReply(t.reply.data).value else c.spec)
  }

  function ClientApply(c: Client, st: ClientStep): Client
    requires ClientEnabled(c, st)
  {
    match st
    case SendCommand(idSizes) =>
      c.(nextId := c.nextId + 1,
         conn := Apply(c.conn, Register(c.nextId)),
         asked := if Admits(c.conn, c.nextId) then c.asked + [idSizes] else c.asked)
    case SpendId => c.(nextId := c.nextId + 1)
    case Other(st) =>
      var d := c.(conn := Apply(c.conn, st));
      match ReturningCall(c.conn, st)
      case Some(h) => TakeReply(d, TakenReply(h, c.conn.futures[h].reply, h < |c.asked| && c.asked[h]))
      case None => d
  }

  /** All ids lie below the counter, in the order of registration. */
  ghost predicate IdsAllocated(c: Client) {
    && (forall h: nat | h < |c.conn.requests| :: c.conn.requests[h].id < c.nextId)
    && (forall h: nat, k: nat | h < k < |c.conn.requests| :: c.conn.requests[h].id < c.conn.requests[k].id)
  }

  predicate HasReturned(s: State, h: nat) {
    h < |s.requests| && s.requests[h].phase.Finished? && s.requests[h].phase.ending.Returned?
  }

  /** `taken` lists the calls that returned a reply, each once, with that reply. */
  ghost predicate TakenOk(c: Client) {
    && |c.asked| == |c.conn.requests|
    && (forall i | 0 <= i < |c.taken| ::
          var t := c.taken[i];
          && HasReturned(c.conn, t.call) && c.conn.requests[t.call].phase == Finished(Returned(t.reply))
          && t.idSizes == c.asked[t.call])
    && (forall h: nat | HasReturned(c.conn, h) :: exists i | 0 <= i < |c.taken| :: c.taken[i].call == h)
    && (forall i, j | 0 <= i < j < |c.taken| :: c.taken[i].call != c.taken[j].call)
  }

  /** The spec announced by the last usable IDSizes reply that was taken up. */
  function SpecAfterReplies(initial: IdSizesSpec, taken: seq<TakenReply>): IdSizesSpec {
    if taken == [] then initial
    else
      var last := taken[|taken| - 1];
      if SetsSpec(last) then SpecFromReply(last.reply.data).value
      else SpecAfterReplies(initial, taken[..|taken| - 1])
  }

  ghost predicate ClientInv(c: Client) {
    && Inv(c.conn) && IdsAllocated(c) && TakenOk(c)
    && c.spec == SpecAfterReplies(c.initial, c.taken)
  }

  lemma ClientStepKeepsInv(c: Client, st: ClientStep)
    requires ClientInv(c) && ClientEnabled(c, st)
    ensures ClientInv(ClientApply(c, st)) && ClientApply(c, st).initial == c.initial
  {
    StepKeepsTaken(c, st);
    StepKeepsSpec(c, st);
    StepKeepsIds(c, st);
    NextIdIsFree(c);
    hide TakenOk, SpecAfterReplies, SetsSpec, Inv, IdsAllocated, Apply, Enabled;
    match st {
      case SendCommand(_) =>
        RegisterIsFresh(c);
        StepInvAndExtends(c.conn, Register(c.nextId));
      case SpendId =>
      case Other(step) =>
        hide ReturningCall;
        StepInvAndExtends(c.conn, step);
    }
  }

  lemma RegisterIsFresh(c: Client)
    requires IdsAllocated(c)
    ensures Fresh(c.conn, Register(c.nextId)) && Enabled(c.conn, Register(c.nextId))
  {
  }

  lemma StepKeepsIds(c: Client, st: ClientStep)
    requires PendingOk(c.conn) && IdsAllocated(c) && ClientEnabled(c, st)
    ensures IdsAllocated(ClientApply(c, st))
  {
    hide PendingOk;
    match st {
      case SendCommand(_) => RegisterAllocates(c, st);
      case SpendId =>
      case Other(step) =>
        StepExtendsRequests(c.conn, step);
        SameRequests(c.conn, step);
        hide Apply, Enabled, ReturningCall;
    }
  }

  lemma RegisterAllocates(c: Client, st: ClientStep)
    requires IdsAllocated(c) && st.SendCommand?
    ensures IdsAllocated(ClientApply(c, st))
  {
  }

  lemma SameRequests(s: State, st: Step)
    requires Enabled(s, st) && !st.Register?
    ensures |Apply(s, st).requests| == |s.requests|
  {
  }

  /** A step makes just the returning call return, with the reply in its future. */
  lemma ReturningCallReturns(s: State, st: Step)
    requires PendingOk(s) && Enabled(s, st)
    ensures var t := Apply(s, st);
            && (forall h: nat :: HasReturned(t, h) <==> HasReturned(s, h) || ReturningCall(s, st) == Some(h))
            && (forall h: nat | HasReturned(s, h) :: t.requests[h].phase == s.requests[h].phase)
            && match ReturningCall(s, st)
               case Some(h) =>
                 && h < |s.futures| && s.futures[h].Resolved? && !HasReturned(s, h)
                 && t.requests[h].phase == Finished(Returned(s.futures[h].reply))
               case None => true
  {
  }

  lemma OtherStepKeepsTaken(c: Client, step: Step)
    requires PendingOk(c.conn) && TakenOk(c) && ClientEnabled(c, Other(step))
    ensures TakenOk(ClientApply(c, Other(step)))
  {
    ReturningCallReturns(c.conn, step);
    SameRequests(c.conn, step);
    hide Apply, Enabled, HasReturned, PendingOk, ReturningCall, SetsSpec;
    var d := ClientApply(c, Other(step));
    if ReturningCall(c.conn, step).Some? {
      assert d.taken[|c.taken|].call == ReturningCall(c.conn, step).value;
    }
    forall h: nat | HasReturned(d.conn, h)
      ensures exists i | 0 <= i < |d.taken| :: d.taken[i].call == h
    {
      if HasReturned(c.conn, h) {
        var i :| 0 <= i < |c.taken| && c.taken[i].call == h;
        assert d.taken[i].call == h;
      }
    }
  }

  lemma StepKeepsTaken(c: Client, st: ClientStep)
    requires PendingOk(c.conn) && TakenOk(c) && ClientEnabled(c, st)
    ensures TakenOk(ClientApply(c, st))
  {
    match st {
      case SendCommand(_) => ReturningCallReturns(c.conn, Register(c.nextId));
      case SpendId =>
      case Other(step) =>
        OtherStepKeepsTaken(c, step);
    }
  }

  lemma StepKeepsSpec(c: Client, st: ClientStep)
    requires ClientEnabled(c, st) && c.spec == SpecAfterReplies(c.initial, c.taken)
    ensures var d := ClientApply(c, st); d.spec == SpecAfterReplies(d.initial, d.taken) && d.initial == c.initial
  {
    hide Apply, Enabled, SpecFromReply;
    var d := ClientApply(c, st);
    if d.taken != c.taken {
      assert d.taken[..|c.taken|] == c.taken;
    }
  }

  /** The next id is in no call's way. */
  lemma NextIdIsFree(c: Client)
    requires ClientInv(c)
    ensures PendingOk(c.conn) && c.nextId !in c.conn.pending && |c.conn.futures| == |c.conn.requests| == |c.asked|
  {
  }

  predicate ClientLegal(c: Client, steps: seq<ClientStep>)
    decreases |steps|
  {
    steps == [] || (ClientEnabled(c, steps[0]) && ClientLegal(ClientApply(c, steps[0]), steps[1..]))
  }

  function ClientRun(c: Client, steps: seq<ClientStep>): Client
    requires ClientLegal(c, steps)
    decreases |steps|
  {
    if steps == [] then c else ClientRun(ClientApply(c, steps[0]), steps[1..])
  }

  lemma {:induction false} ClientRunKeepsInv(c: Client, steps: seq<ClientStep>)
    requires ClientInv(c) && ClientLegal(c, steps)
    ensures ClientInv(ClientRun(c, steps)) && ClientRun(c, steps).initial == c.initial
    decreases |steps|
  {
    hide ClientInv, ClientApply, ClientEnabled;
    if steps != [] {
      ClientStepKeepsInv(c, steps[0]);
      ClientRunKeepsInv(ClientApply(c, steps[0]), steps[1..]);
    }
  }

  lemma NewClientInv(spec: IdSizesSpec)
    ensures ClientInv(NewClient(spec))
  {
  }

  /**
    * No stranded requester, after every interleaving: a call whose future is undone is the entry at its
    * id; an undone entry belongs to exactly one call; and the next id is in no call's way, so the
    * duplicate-id branch is never taken.
    */
  lemma NoStrandedRequester(spec: IdSizesSpec, steps: seq<ClientStep>)
    requires ClientLegal(NewClient(spec), steps)
    ensures var c := ClientRun(NewClient(spec), steps);
            var s := c.conn;
            && (forall h: nat | Waiting(s, h) :: s.requests[h].id in s.pending && s.pending[s.requests[h].id] == h)
            && (forall id | id in s.pending ::
                  && Unfinished(s, s.pending[id]) && s.requests[s.pending[id]].id == id
                  && forall h: nat | h < |s.requests| && h != s.pending[id] :: s.requests[h].id != id)
            && c.nextId !in s.pending
  {
    NewClientInv(spec);
    ClientRunKeepsInv(NewClient(spec), steps);
    hide ClientLegal, ClientRun, TakenOk, SpecAfterReplies;
    var c := ClientRun(NewClient(spec), steps);
    forall id, h: nat | id in c.conn.pending && h < |c.conn.requests| && h != c.conn.pending[id]
      ensures c.conn.requests[h].id != id
    {
      if h < c.conn.pending[id] {
        assert c.conn.requests[h].id < c.conn.requests[c.conn.pending[id]].id;
      } else {
        assert c.conn.requests[c.conn.pending[id]].id < c.conn.requests[h].id;
      }
    }
  }

  /** How many ids a run has spent. */
  function Sends(steps: seq<ClientStep>): nat {
    if steps == [] then 0 else (if steps[0].Other? then 0 else 1) + Sends(steps[1..])
  }

  lemma {:induction false} IdsAreCounted(c: Client, steps: seq<ClientStep>)
    requires ClientLegal(c, steps)
    ensures ClientRun(c, steps).nextId == c.nextId + Sends(steps)
    decreases |steps|
  {
    hide Apply, Enabled, ReturningCall;
    if steps != [] {
      IdsAreCounted(ClientApply(c, steps[0]), steps[1..]);
    }
  }

  /** The ids of a client are 1, 2, 3, ...: one for each send_command, registered calls in rising order. */
  lemma IdsFromOne(spec: IdSizesSpec, steps: seq<ClientStep>)
    requires ClientLegal(NewClient(spec), steps)
    ensures var c := ClientRun(NewClient(spec), steps);
            && c.nextId == 1 + Sends(steps)
            && (forall h: nat, k: nat | h < k < |c.conn.requests| :: c.conn.requests[h].id < c.conn.requests[k].id)
            && (forall h: nat | h < |c.conn.requests| :: c.conn.requests[h].id <= Sends(steps))
  {
    NewClientInv(spec);
    ClientRunKeepsInv(NewClient(spec), steps);
    IdsAreCounted(NewClient(spec), steps);
    hide ClientLegal, ClientRun, TakenOk, SpecAfterReplies, Inv;
  }

  // ----- the ID sizes that the client works with -----

  /** The k-th reply taken up is the last usable IDSizes reply. */
  ghost predicate IsLastAnnouncement(taken: seq<TakenReply>, k: nat)
    requires k < |taken|
  {
    SetsSpec(taken[k]) && forall j | k < j < |taken| :: !SetsSpec(taken[j])
  }

  /** Only the last usable IDSizes reply matters. */
  lemma {:induction false} LastAnnouncementWins(initial: IdSizesSpec, taken: seq<TakenReply>)
    ensures var spec := SpecAfterReplies(initial, taken);
            || (spec == initial && forall i | 0 <= i < |taken| :: !SetsSpec(taken[i]))
            || (exists k: nat | k < |taken| ::
                  IsLastAnnouncement(taken, k) && spec == SpecFromReply(taken[k].reply.data).value)
  {
    hide SpecFromReply;
    if taken != [] {
      var before, last := taken[..|taken| - 1], |taken| - 1;
      if SetsSpec(taken[last]) {
        assert IsLastAnnouncement(taken, last);
      } else {
        LastAnnouncementWins(initial, before);
        var spec := SpecAfterReplies(initial, before);
        if k: nat :| k < |before| && IsLastAnnouncement(before, k) && spec == SpecFromReply(before[k].reply.data).value {
          assert IsLastAnnouncement(taken, k);
        }
      }
    }
  }

  /**
    * The client's spec after every interleaving: the initial one as long as no call that asked for the sizes
    * has returned with supported ones, and from then on those of the last such call to return.
    */
  lemma ClientSpec(spec: IdSizesSpec, steps: seq<ClientStep>)
    requires ClientLegal(NewClient(spec), steps)
    ensures var c := ClientRun(NewClient(spec), steps);
            && TakenOk(c)
            && (|| (c.spec == spec && forall i | 0 <= i < |c.taken| :: !SetsSpec(c.taken[i]))
                || (exists k: nat | k < |c.taken| ::
                      && IsLastAnnouncement(c.taken, k)
                      && c.spec == SpecFromReply(c.taken[k].reply.data).value))
  {
    NewClientInv(spec);
    ClientRunKeepsInv(NewClient(spec), steps);
    hide ClientLegal, ClientRun, TakenOk, SpecAfterReplies, SetsSpec;
    var c := ClientRun(NewClient(spec), steps);
    LastAnnouncementWins(spec, c.taken);
  }

  lemma ClientRunOne(c: Client, steps: seq<ClientStep>)
    requires steps != [] && ClientEnabled(c, steps[0]) && ClientLegal(ClientApply(c, steps[0]), steps[1..])
    ensures ClientLegal(c, steps) && ClientRun(c, steps) == ClientRun(ClientApply(c, steps[0]), steps[1..])
  {
  }

  /** The exchange that negotiates the sizes: command sent, reply with the VM's spec received and taken up. */
  function BootstrapRun(c: Client, spec: IdSizesSpec, tail: bytes): seq<ClientStep> {
    var h := |c.conn.requests|;
    [ClientStep.SendCommand(true), Other(SendDone(h)),
     Other(Arrive(ReplyPacket(c.nextId, 128, EncodeIdSizes(ResponseOfSpec(spec)) + tail, 0))), Other(Resume(h))]
  }

  /** Call h, which asked for the sizes, is in this phase and waits for its reply. */
  predicate AsksAt(c: Client, h: nat, id: nat, phase: Phase) {
    && h < |c.conn.requests| && h < |c.conn.futures| && h < |c.asked| && c.asked[h]
    && c.conn.futures[h].Undone? && id in c.conn.pending && c.conn.pending[id] == h
    && c.conn.requests[h].phase == phase && c.conn.requests[h].id == id && !c.conn.requests[h].cancelRequested
  }

  lemma AsksAfterSend(c: Client)
    requires ClientInv(c) && !Broken(c.conn)
    ensures AsksAt(ClientApply(c, ClientStep.SendCommand(true)), |c.conn.requests|, c.nextId, Sending)
  {
    NextIdIsFree(c);
    hide ClientInv;
  }

  lemma AsksAfterDrain(c: Client, h: nat, id: nat)
    requires AsksAt(c, h, id, Sending)
    ensures ClientEnabled(c, Other(SendDone(h))) && AsksAt(ClientApply(c, Other(SendDone(h))), h, id, Awaiting)
  {
  }

  lemma SizesArrive(c: Client, h: nat, p: JdwpPacket, spec: IdSizesSpec)
    requires AsksAt(c, h, p.id, Awaiting)
    requires p.ReplyPacket? && p.errorCode == 0 && SpecFromReply(p.data) == Ok(spec)
    ensures var d := ClientApply(c, Other(Arrive(p)));
            ClientEnabled(d, Other(Resume(h))) && ClientApply(d, Other(Resume(h))).spec == spec
  {
    hide SpecFromReply;
  }

  /** From every state of a client that still works, this exchange brings it to the VM's spec. */
  lemma Bootstrap(c: Client, spec: IdSizesSpec, tail: bytes)
    requires ClientInv(c) && !Broken(c.conn)
    ensures ClientLegal(c, BootstrapRun(c, spec, tail)) && ClientRun(c, BootstrapRun(c, spec, tail)).spec == spec
  {
    SpecRoundTrip(spec, tail);
    AsksAfterSend(c);
    hide SpecFromReply, EncodeIdSizes, ClientInv, ClientApply, AsksAt, Enabled;
    var steps := BootstrapRun(c, spec, tail);
    var h := |c.conn.requests|;
    var c1 := ClientApply(c, steps[0]);
    AsksAfterDrain(c1, h, c.nextId);
    var c2 := ClientApply(c1, steps[1]);
    SizesArrive(c2, h, steps[2].st.p, spec);
    ArrivalIsEnabled(c2, steps[2].st.p);
    var c3 := ClientApply(c2, steps[2]);
    ClientRunOne(c3, steps[3..]);
    ClientRunOne(c2, steps[2..]);
    ClientRunOne(c1, steps[1..]);
    ClientRunOne(c, steps);
  }

  lemma ArrivalIsEnabled(c: Client, p: JdwpPacket)
    ensures ClientEnabled(c, Other(Arrive(p)))
  {
  }

  /** A resolved future holds a reply packet. */
  lemma ResolvedIsReply(s: State, h: nat)
    requires Inv(s) && h < |s.futures| && s.futures[h].Resolved?
    ensures s.futures[h].reply.ReplyPacket?
  {
  }

  /**
    * How send_command ends on a reply. For a response class other than IDSizesResponse, `decodes` is what its
    * decoder made of the payload.
    */
  function ReplyOutcome(reply: JdwpPacket, idSizes: bool, decodes: Outcome): Outcome
    requires reply.ReplyPacket?
  {
    if reply.errorCode != 0 then Fail(JdwpException)
    else if !idSizes then decodes
    else match SpecFromReply(reply.data) case Ok(_) => Pass case Err(e) => Fail(e)
  }

  /** Where a call of send_command stands after a step of its own. */
  datatype Progress = Suspended | Raised(ending: Ending) | Answered(outcome: Outcome)

  /** What a done future makes of the call that awaits it. */
  function ProgressOf(ending: Ending, idSizes: bool, decodes: Outcome): Progress {
    if ending.Returned? && ending.reply.ReplyPacket? then Answered(ReplyOutcome(ending.reply, idSizes, decodes))
    else Raised(ending)
  }

  class SimpleJdwpConnection {
    const packetConn: JdwpPacketConnection
    var spec: IdSizesSpec
    var nextPacketId: nat
    /** Which calls sent an IDSizes command, the first spec, and the replies taken up. */
    ghost var asked: seq<bool>
    ghost const initial: IdSizesSpec
    ghost var taken: seq<TakenReply>

    ghost function Abs(): Client
      reads this, packetConn, packetConn.state
    {
      Client(nextPacketId, packetConn.Abs(), spec, asked, initial, taken)
    }

    ghost predicate Valid()
      reads this, packetConn, packetConn.state
    {
      ClientInv(Abs())
    }

    constructor (packetConn: JdwpPacketConnection, spec: Option<IdSizesSpec>)
      requires packetConn.Abs() == INITIAL
      ensures Valid() && this.packetConn == packetConn
      ensures Abs() == NewClient(if spec.Some? then spec.value else DEFAULT_SPEC)
    {
      var first := if spec.Some? then spec.value else DEFAULT_SPEC;
      this.packetConn := packetConn;
      this.spec := first;
      this.nextPacketId := 1;
      this.asked := [];
      this.initial := first;
      this.taken := [];
      new;
      NewClientInv(first);
    }

    method AllocatePacketId() returns (id: nat)
      modifies this`nextPacketId
      ensures id == old(nextPacketId) && nextPacketId == id + 1
    {
      id := nextPacketId;
      nextPacketId := nextPacketId + 1;
    }

    /**
      * send_command up to its first suspension. The payload is what cmd.to_bytes returned or raised; the
      * result is the packet now being sent and, when a response is expected, its future.
      */
    method BeginSendCommand(commandSet: int, command: int, payload: Result<bytes>, hasResponse: bool)
      returns (r: Result<(JdwpPacket, Option<nat>)>)
      requires Valid()
      modifies this`nextPacketId, this`asked, packetConn
      ensures Valid()
      ensures Abs() == ClientApply(old(Abs()), SendingStep(commandSet, command, payload.Ok? && hasResponse))
      ensures r.Ok? <==> payload.Ok? && (hasResponse ==> !Broken(old(packetConn.Abs())))
      ensures r.Ok? ==>
                && r.value.0 == CommandPacket(old(nextPacketId), 0, payload.value, commandSet, command)
                && r.value.1 == if hasResponse then Some(|old(packetConn.futures)|) else None
    {
      hide ClientInv, PendingOk, Apply, SetsSpec, SpecAfterReplies;
      ClientStepKeepsInv(Abs(), SendingStep(commandSet, command, payload.Ok? && hasResponse));
      NextIdIsFree(Abs());
      var id := AllocatePacketId();
      var data :- payload;
      var packet := CommandPacket(id, 0, data, commandSet, command);
      assert NewPacket(packet) == Ok(packet);
      if !hasResponse {
        return Ok((packet, None));
      }
      var future :- packetConn.BeginSend(packet);
      asked := asked + [IsIdSizes(commandSet, command)];
      return Ok((packet, Some(future)));
    }

    /** send_command from its reply on: validation, decoding, and the upgrade of the spec. */
    method FinishSendCommand(reply: JdwpPacket, idSizes: bool, decodes: Outcome) returns (r: Outcome)
      requires reply.ReplyPacket?
      modifies this`spec
      ensures r == ReplyOutcome(reply, idSizes, decodes)
      ensures reply.errorCode != 0 ==> r == Fail(JdwpException) && spec == old(spec)
      ensures reply.errorCode == 0 && !idSizes ==> r == decodes && spec == old(spec)
      ensures reply.errorCode == 0 && idSizes ==>
                match SpecFromReply(reply.data)
                case Ok(announced) => r == Pass && spec == announced
                case Err(e) => r == Fail(e) && spec == old(spec)
    {
      hide SpecFromResponse, ReadIdSizes;
      if reply.errorCode != 0 {
        return Fail(JdwpException);
      }
      if !idSizes {
        return decodes;
      }
      var reader := new JdwpReader(reply.data, spec);
      var response := DeserializeIdSizes(reader);
      if response.Err? {
        return Fail(response.error);
      }
      var upgraded := SpecFromResponse(response.value);
      if upgraded.Err? {
        return Fail(upgraded.error);
      }
      spec := upgraded.value;
      return Pass;
    }

    /** A call goes on when its send has completed. */
    method AfterSend(h: nat, id: nat, idSizes: bool, decodes: Outcome) returns (r: Progress)
      requires Valid() && Enabled(packetConn.Abs(), SendDone(h))
      requires packetConn.requests[h].id == id && h < |asked| && asked[h] == idSizes
      modifies this`spec, this`taken, packetConn
      ensures Valid() && Abs() == ClientApply(old(Abs()), Other(SendDone(h)))
      ensures r == if old(packetConn.futures)[h].Undone? then Suspended
                   else ProgressOf(EndingOf(old(packetConn.futures)[h]), idSizes, decodes)
      ensures old(packetConn.futures)[h].Resolved? ==>
                var reply := old(packetConn.futures)[h].reply;
                && reply.ReplyPacket?
                && (reply.errorCode != 0 ==> r == Answered(Fail(JdwpException)) && spec == old(spec))
                && (reply.errorCode == 0 && !idSizes ==> r == Answered(decodes) && spec == old(spec))
                && (reply.errorCode == 0 && idSizes ==>
                      match SpecFromReply(reply.data)
                      case Ok(announced) => r == Answered(Pass) && spec == announced
                      case Err(e) => r == Answered(Fail(e)) && spec == old(spec))
    {
      hide ClientInv, PendingOk, Apply, SpecFromReply;
      ClientStepKeepsInv(Abs(), Other(SendDone(h)));
      Future(h);
      var ending := packetConn.AfterSend(h, id);
      if ending.None? {
        return Suspended;
      }
      if !ending.value.Returned? {
        return Raised(ending.value);
      }
      taken := taken + [TakenReply(h, ending.value.reply, idSizes)];
      var outcome := FinishSendCommand(ending.value.reply, idSizes, decodes);
      return Answered(outcome);
    }

    /** A call goes on when its future is done. */
    method AfterFuture(h: nat, id: nat, cancelled: bool, idSizes: bool, decodes: Outcome) returns (r: Progress)
      requires Valid() && Enabled(packetConn.Abs(), Resume(h))
      requires packetConn.requests[h].id == id && packetConn.requests[h].cancelRequested == cancelled
      requires h < |asked| && asked[h] == idSizes
      modifies this`spec, this`taken, packetConn
      ensures Valid() && Abs() == ClientApply(old(Abs()), Other(Resume(h)))
      ensures r == ProgressOf(if cancelled then RaisedCancelled else EndingOf(old(packetConn.futures)[h]),
                              idSizes, decodes)
      ensures !cancelled && old(packetConn.futures)[h].Resolved? ==>
                var reply := old(packetConn.futures)[h].reply;
                && reply.ReplyPacket?
                && (reply.errorCode != 0 ==> r == Answered(Fail(JdwpException)) && spec == old(spec))
                && (reply.errorCode == 0 && !idSizes ==> r == Answered(decodes) && spec == old(spec))
                && (reply.errorCode == 0 && idSizes ==>
                      match SpecFromReply(reply.data)
                      case Ok(announced) => r == Answered(Pass) && spec == announced
                      case Err(e) => r == Answered(Fail(e)) && spec == old(spec))
    {
      hide ClientInv, PendingOk, SpecFromReply;
      ClientStepKeepsInv(Abs(), Other(Resume(h)));
      Future(h);
      var ending := packetConn.AfterFuture(h, id, cancelled);
      if !ending.Returned? {
        return Raised(ending);
      }
      taken := taken + [TakenReply(h, ending.reply, idSizes)];
      var outcome := FinishSendCommand(ending.reply, idSizes, decodes);
      return Answered(outcome);
    }

    lemma Future(h: nat)
      requires Valid() && h < |packetConn.futures|
      ensures packetConn.Valid()
      ensures packetConn.futures[h].Resolved? ==> packetConn.futures[h].reply.ReplyPacket?
    {
      if packetConn.futures[h].Resolved? {
        ResolvedIsReply(packetConn.Abs(), h);
      }
    }
  }
}
