/**
  * The registry of the modelled commands and the way of a command through payload, packet and frame
  * (commands/base.py, commands/registry.py, connection.py).
  */
module Commands {
  import opened Results
  import opened Bytes
  import opened Constants
  import opened Spec
  import opened Wire
  import opened Io
  import opened Packet
  import opened Event
  import opened EventRequest
  import opened ArrayReference
  import opened Vm

  datatype JdwpCommand =
    | IdSizes
    | RedefineClasses(classes: seq<RedefineClassesRequest>)
    | ArrayLength(arrayObject: int)
    | ArrayGetValues(arrayObject: int, firstIndex: int, length: int)
    | ArraySetValues(values: SetValuesRequest)
    | EventSet(request: SetRequest)
    | EventClear(eventKind: JdwpEventKind, requestId: int)
    | EventClearAllBreakpoints
    | EventComposite(composite: Composite)
  {
    /** COMMAND_SET and COMMAND of each class. */
    function Code(): (byte, byte) {
      match this
      case IdSizes => (1, 7)
      case RedefineClasses(_) => (1, 18)
      case ArrayLength(_) => (13, 1)
      case ArrayGetValues(_, _, _) => (13, 2)
      case ArraySetValues(_) => (13, 3)
      case EventSet(_) => (15, 1)
      case EventClear(_, _) => (15, 2)
      case EventClearAllBreakpoints => (15, 3)
      case EventComposite(_) => (64, 100)
    }
  }

  function EncodeClear(kind: JdwpEventKind, id: int): bytes {
    [kind.Code()] + EncodeInt(id)
  }

  function EncodeGetValues(spec: IdSizesSpec, a: int, first: int, length: int): bytes {
    BigEndian(spec.objectId, a) + EncodeInt(first) + EncodeInt(length)
  }

  function EncodeCommand(spec: IdSizesSpec, c: JdwpCommand): bytes {
    match c
    case IdSizes => []
    case RedefineClasses(classes) => EncodeRedefineClasses(spec, classes)
    case ArrayLength(a) => BigEndian(spec.objectId, a)
    case ArrayGetValues(a, first, length) => EncodeGetValues(spec, a, first, length)
    case ArraySetValues(v) => EncodeSetValues(spec, v)
    case EventSet(r) => EncodeSet(spec, r)
    case EventClear(kind, id) => EncodeClear(kind, id)
    case EventClearAllBreakpoints => []
    case EventComposite(x) => EncodeComposite(spec, x)
  }

  /** The commands whose to_bytes does not raise. */
  ghost predicate CommandFits(spec: IdSizesSpec, c: JdwpCommand) {
    match c
    case IdSizes => true
    case RedefineClasses(classes) => RedefineClassesFits(spec, classes)
    case ArrayLength(a) => FitsUnsigned(spec.objectId, a)
    case ArrayGetValues(a, first, length) =>
      FitsUnsigned(spec.objectId, a) && FitsSigned(4, first) && FitsSigned(4, length)
    case ArraySetValues(v) => SetValuesFits(spec, v)
    case EventSet(r) => SetFits(spec, r)
    case EventClear(_, id) => FitsSigned(4, id)
    case EventClearAllBreakpoints => true
    case EventComposite(x) => CompositeFits(spec, x)
  }

  function ReadClear(data: bytes, off: int): Read<JdwpCommand> {
    var (b, o1) :- ReadByte(data, off);
    var kind :- EventKindOfCode(b);
    var (id, o2) :- ReadInt(data, o1);
    Ok((EventClear(kind, id), o2))
  }

  function ReadGetValues(spec: IdSizesSpec, data: bytes, off: int): Read<JdwpCommand> {
    var (a, o1) :- ReadUnsigned(spec.objectId, data, off);
    var (first, o2) :- ReadInt(data, o1);
    var (length, o3) :- ReadInt(data, o2);
    Ok((ArrayGetValues(a, first, length), o3))
  }

  /** The keys of the command registry. */
  predicate IsRegistered(commandSet: int, command: int) {
    match commandSet
    case 1 => 1 <= command <= 21
    case 2 => 1 <= command <= 18
    case 3 => 1 <= command <= 4
    case 4 | 5 | 10 | 14 | 17 => command == 1
    case 6 => 1 <= command <= 5
    case 9 => 1 <= command <= 10 && command != 4
    case 11 => 1 <= command <= 14
    case 12 | 13 | 15 => 1 <= command <= 3
    case 16 => 1 <= command <= 4
    case 64 => command == 100
    case _ => false
  }

  /**
    * get_command_class and from_bytes; trailing payload bytes are ignored. What a registered class outside
    * the model makes of the payload is left open.
    */
  function ReadCommand(spec: IdSizesSpec, commandSet: int, command: int, data: bytes): Result<JdwpCommand> {
    match (commandSet, command)
    case (1, 7) => Ok(IdSizes)
    case (1, 18) =>
      var (classes, _) :- ReadRedefineClasses(spec, data, 0);
      Ok(RedefineClasses(classes))
    case (13, 1) =>
      var (a, _) :- ReadUnsigned(spec.objectId, data, 0);
      Ok(ArrayLength(a))
    case (13, 2) =>
      var (c, _) :- ReadGetValues(spec, data, 0);
      Ok(c)
    case (13, 3) =>
      var (v, _) :- ReadSetValues(spec, None, data, 0);
      Ok(ArraySetValues(v))
    case (15, 1) =>
      var (r, _) :- ReadSet(spec, data, 0);
      Ok(EventSet(r))
    case (15, 2) =>
      var (c, _) :- ReadClear(data, 0);
      Ok(c)
    case (15, 3) => Ok(EventClearAllBreakpoints)
    case (64, 100) =>
      var (x, _) :- ReadComposite(spec, data, 0);
      Ok(EventComposite(x))
    case _ => Err(if IsRegistered(commandSet, command) then OutsideModel else RuntimeError)
  }

  /**
    * Whether SimpleJdwpConnection.receive_command returns on this packet; `others` is the verdict of the
    * decoders outside the model.
    */
  predicate Decodes(spec: IdSizesSpec, p: JdwpPacket, others: bool)
    requires p.CommandPacket?
  {
    match ReadCommand(spec, p.commandSet, p.command, p.data)
    case Ok(_) => true
    case Err(e) => e.OutsideModel? && others
  }

  /** What is decoded under a set and a command is a command with these codes. */
  lemma LookupAgrees(spec: IdSizesSpec, commandSet: int, command: int, data: bytes)
    ensures match ReadCommand(spec, commandSet, command, data)
            case Ok(c) => c.Code().0 == commandSet && c.Code().1 == command
            case Err(_) => true
  {
    hide ReadRedefineClasses, ReadUnsigned, ReadSetValues, ReadSet, ReadComposite, ReadSigned, Wire.ReadByte;
  }

  /** Each modelled class is in the registry, under its own codes, and is the class that a lookup finds. */
  lemma LookupFindsTheClass(spec: IdSizesSpec, c: JdwpCommand, data: bytes)
    ensures IsRegistered(c.Code().0 as int, c.Code().1 as int)
    ensures var r := ReadCommand(spec, c.Code().0 as int, c.Code().1 as int, data);
            r.Ok? ==> r.value.Code() == c.Code()
  {
    LookupAgrees(spec, c.Code().0, c.Code().1, data);
    hide ReadRedefineClasses, ReadUnsigned, ReadSetValues, ReadSet, ReadComposite, ReadSigned, Wire.ReadByte;
  }

  /** No payload makes an unregistered code acceptable. */
  lemma UnregisteredIsRejected(spec: IdSizesSpec, p: JdwpPacket, others: bool)
    requires p.CommandPacket? && !IsRegistered(p.commandSet, p.command)
    ensures ReadCommand(spec, p.commandSet, p.command, p.data) == Err(RuntimeError)
    ensures !Decodes(spec, p, others)
  {
    hide ReadRedefineClasses, ReadUnsigned, ReadSetValues, ReadSet, ReadComposite;
  }

  /** The packet that send_command builds for a command. */
  function CommandToPacket(spec: IdSizesSpec, id: nat, c: JdwpCommand): JdwpPacket {
    CommandPacket(id, 0, EncodeCommand(spec, c), c.Code().0, c.Code().1)
  }

  /** What the other end makes of a stream's next frame. */
  function CommandOfStream(spec: IdSizesSpec, s: bytes): Result<JdwpCommand> {
    var (p, _) :- ParseFrame(s);
    if p.CommandPacket? then ReadCommand(spec, p.commandSet, p.command, p.data) else Err(ValueError)
  }

  /** Only SetValues loses something: the tag of its values, unless that is the default. */
  ghost predicate SurvivesTheWire(c: JdwpCommand) {
    c.ArraySetValues? ==> c.values.tag == INT && AllCarry(INT, c.values.values)
  }

  lemma SmallCommandsDecode(spec: IdSizesSpec, c: JdwpCommand)
    requires CommandFits(spec, c) && (c.ArrayLength? || c.ArrayGetValues? || c.EventClear?)
    ensures ReadCommand(spec, c.Code().0 as int, c.Code().1 as int, EncodeCommand(spec, c)) == Ok(c)
  {
    hide BigEndian, ReadUnsigned, ReadSigned, ReadByte, FitsUnsigned, FitsSigned;
    var data := EncodeCommand(spec, c);
    assert At(data, 0, data);
    hide At;
    FieldsDelimit(data);
  }

  lemma PayloadDecodes(spec: IdSizesSpec, c: JdwpCommand)
    requires CommandFits(spec, c)
    ensures ReadCommand(spec, c.Code().0 as int, c.Code().1 as int, EncodeCommand(spec, c)) == Ok(c)
            <==> SurvivesTheWire(c)
  {
    hide EncodeComposite, ReadComposite, CompositeFits, EncodeSet, ReadSet, SetFits, EncodeSetValues,
         ReadSetValues, SetValuesFits, AllCarry, EncodeRedefineClasses, ReadRedefineClasses, RedefineClassesFits,
         EncodeGetValues, EncodeClear, ReadUnsigned, BigEndian, ReadGetValues, ReadClear;
    var data := EncodeCommand(spec, c);
    assert At(data, 0, data);
    match c {
      case EventComposite(x) => CompositeDelimits(spec, x, data, 0);
      case EventSet(r) => SetDelimits(spec, r, data, 0);
      case RedefineClasses(classes) => RedefineClassesDelimits(spec, classes, data, 0);
      case ArraySetValues(v) =>
        SetValuesDomain(spec, v, None, []);
        assert data + [] == data;
        SetValuesMisread(spec, v);
      case IdSizes =>
      case EventClearAllBreakpoints =>
      case _ => SmallCommandsDecode(spec, c);
    }
  }

  /** When the command comes back at all, all of its bytes have been read. */
  lemma SetValuesMisread(spec: IdSizesSpec, v: SetValuesRequest)
    requires SetValuesFits(spec, v)
    ensures var r := ReadSetValues(spec, None, EncodeSetValues(spec, v), 0);
            r.Ok? && r.value.0 == v ==> v.tag == INT && AllCarry(INT, v.values)
  {
    hide SetValuesFits, AllCarry, EncodeSetValues, ReadSetValues;
    var data := EncodeSetValues(spec, v);
    if ReadSetValues(spec, None, data, 0).Ok? {
      DecodedTags(spec, None, data, 0);
    }
  }

  /**
    * End to end: when both ends hold the same spec, a command sent under any of the first 2^32 - 1
    * allocated ids comes out of the frame as it went in, whatever follows on the stream, if and only if
    * it is not a SetValues of other values than INT.
    */
  lemma EndToEnd(spec: IdSizesSpec, id: nat, c: JdwpCommand, tail: bytes)
    requires CommandFits(spec, c)
    requires 1 <= id < 0x1_0000_0000 && 11 + |EncodeCommand(spec, c)| < 0x1_0000_0000
    ensures ParseFrame(EncodePacket(CommandToPacket(spec, id, c)) + tail)
            == Ok((CommandToPacket(spec, id, c), 11 + |EncodeCommand(spec, c)|))
    ensures CommandOfStream(spec, EncodePacket(CommandToPacket(spec, id, c)) + tail) == Ok(c)
            <==> SurvivesTheWire(c)
  {
    hide CommandFits, EncodeCommand, ReadCommand, SurvivesTheWire;
    HeaderRange(id);
    HeaderRange(11 + |EncodeCommand(spec, c)|);
    CodesFit(c);
    hide ParseFrame, EncodePacket, FitsUnsigned;
    ParseOfEncode(CommandToPacket(spec, id, c), tail);
    PayloadDecodes(spec, c);
  }

  lemma HeaderRange(v: nat)
    requires v < 0x1_0000_0000
    ensures FitsUnsigned(4, v)
  {
    assert Pow256(4) == 0x1_0000_0000;
  }

  lemma CodesFit(c: JdwpCommand)
    ensures FitsUnsigned(1, c.Code().0 as int) && FitsUnsigned(1, c.Code().1 as int) && FitsUnsigned(1, 0)
  {
    assert Pow256(1) == 256;
  }

  // ----- to_bytes and from_bytes through the stateful cursor and buffer -----

  method SerializeCommand(w: JdwpWriter, c: JdwpCommand) returns (r: Outcome)
    modifies w
    ensures r.Pass? <==> CommandFits(w.spec, c)
    ensures r.Pass? ==> w.buffer == old(w.buffer) + EncodeCommand(w.spec, c)
  {
    hide EncodeComposite, CompositeFits, EncodeSet, SetFits, EncodeSetValues, SetValuesFits,
         EncodeRedefineClasses, RedefineClassesFits, BigEndian, FitsUnsigned, FitsSigned;
    r := Pass;
    match c {
      case IdSizes =>
      case RedefineClasses(classes) => r := SerializeRedefineClasses(w, classes);
      case ArrayLength(a) => r := w.WriteObjectId(a);
      case ArrayGetValues(a, first, length) =>
        AppendedTo(w.buffer);
        :- w.WriteObjectId(a);
        :- w.WriteInt(first);
        r := w.WriteInt(length);
      case ArraySetValues(v) => r := SerializeSetValues(w, v);
      case EventSet(request) => r := SerializeSet(w, request);
      case EventClear(kind, id) =>
        Regroup(w.buffer, [kind.Code()], EncodeInt(id));
        w.WriteByte(kind.Code());
        r := w.WriteInt(id);
      case EventClearAllBreakpoints =>
      case EventComposite(x) => r := SerializeComposite(w, x);
    }
  }

  method ToBytes(spec: IdSizesSpec, c: JdwpCommand) returns (r: Result<bytes>)
    ensures r.Ok? <==> CommandFits(spec, c)
    ensures r.Ok? ==> r.value == EncodeCommand(spec, c)
    ensures r.Ok? ==> (ReadCommand(spec, c.Code().0 as int, c.Code().1 as int, r.value) == Ok(c)
                       <==> SurvivesTheWire(c))
  {
    hide CommandFits, EncodeCommand, ReadCommand, SurvivesTheWire;
    var w := new JdwpWriter(spec);
    var done := SerializeCommand(w, c);
    if done.Fail? {
      return Err(done.error);
    }
    assert [] + EncodeCommand(spec, c) == EncodeCommand(spec, c);
    PayloadDecodes(spec, c);
    return Ok(w.buffer);
  }

  method FromBytes(spec: IdSizesSpec, commandSet: int, command: int, data: bytes)
    returns (r: Result<JdwpCommand>)
    ensures r == ReadCommand(spec, commandSet, command, data)
  {
    hide ReadComposite, ReadSet, ReadSetValues, ReadRedefineClasses, ReadUnsigned, ReadSigned, Wire.ReadByte;
    var reader := new JdwpReader(data, spec);
    match (commandSet, command) {
      case (1, 7) =>
        return Ok(IdSizes);
      case (1, 18) =>
        var classes :- DeserializeRedefineClasses(reader);
        return Ok(RedefineClasses(classes));
      case (13, 1) =>
        var a :- reader.ReadObjectId();
        return Ok(ArrayLength(a));
      case (13, 2) =>
        var a :- reader.ReadObjectId();
        var first :- reader.ReadInt();
        var length :- reader.ReadInt();
        return Ok(ArrayGetValues(a, first, length));
      case (13, 3) =>
        var v :- DeserializeSetValues(reader, None);
        return Ok(ArraySetValues(v));
      case (15, 1) =>
        var request :- DeserializeSet(reader);
        return Ok(EventSet(request));
      case (15, 2) =>
        var b :- reader.ReadByte();
        var kind :- EventKindOfCode(b);
        var id :- reader.ReadInt();
        return Ok(EventClear(kind, id));
      case (15, 3) =>
        return Ok(EventClearAllBreakpoints);
      case (64, 100) =>
        var x :- DeserializeComposite(reader);
        return Ok(EventComposite(x));
      case _ =>
        return Err(if IsRegistered(commandSet, command) then OutsideModel else RuntimeError);
    }
  }
}
