/** The 12 event modifiers and EventRequest.Set (commands/event_request.py). */
module EventRequest {
  import opened Results
  import opened Bytes
  import opened Constants
  import opened Spec
  import opened Wire
  import opened Lists
  import opened Io

  datatype EventModifier =
    | Count(count: int)
    | Conditional(exprId: int)
    | ThreadOnly(thread: int)
    | ClassOnly(clazz: int)
    | ClassMatch(classPattern: bytes)
    | ClassExclude(classPattern: bytes)
    | LocationOnly(loc: Location)
    | ExceptionOnly(exceptionOrNull: int, caught: bool, uncaught: bool)
    | FieldOnly(declaring: int, field: int)
    | StepOnly(thread: int, size: int, depth: int)
    | InstanceOnly(instance: int)
    | PlatformThreadsOnly
  {
    /** MOD_KIND of each class. */
    function ModKind(): byte {
      match this
      case Count(_) => 1
      case Conditional(_) => 2
      case ThreadOnly(_) => 3
      case ClassOnly(_) => 4
      case ClassMatch(_) => 5
      case ClassExclude(_) => 6
      case LocationOnly(_) => 7
      case ExceptionOnly(_, _, _) => 8
      case FieldOnly(_, _) => 9
      case StepOnly(_, _, _) => 10
      case InstanceOnly(_) => 11
      case PlatformThreadsOnly => 14
    }
  }

  datatype SetRequest = SetRequest(
    eventKind: JdwpEventKind,
    suspendPolicy: JdwpSuspendPolicy,
    modifiers: seq<EventModifier>)

  function EncodeModifierBody(spec: IdSizesSpec, m: EventModifier): bytes {
    match m
    case Count(n) => EncodeInt(n)
    case Conditional(n) => EncodeInt(n)
    case ThreadOnly(t) => BigEndian(spec.objectId, t)
    case ClassOnly(c) => BigEndian(spec.referenceTypeId, c)
    case ClassMatch(s) => EncodeString(s)
    case ClassExclude(s) => EncodeString(s)
    case LocationOnly(l) => EncodeLocation(spec, l)
    case ExceptionOnly(x, c, u) => BigEndian(spec.referenceTypeId, x) + EncodeBoolean(c) + EncodeBoolean(u)
    case FieldOnly(d, f) => BigEndian(spec.referenceTypeId, d) + BigEndian(spec.fieldId, f)
    case StepOnly(t, s, d) => BigEndian(spec.objectId, t) + EncodeInt(s) + EncodeInt(d)
    case InstanceOnly(i) => BigEndian(spec.objectId, i)
    case PlatformThreadsOnly => []
  }

  function EncodeModifier(spec: IdSizesSpec, m: EventModifier): bytes {
    [m.ModKind()] + EncodeModifierBody(spec, m)
  }

  predicate ModifierFits(spec: IdSizesSpec, m: EventModifier) {
    match m
    case Count(n) => FitsSigned(4, n)
    case Conditional(n) => FitsSigned(4, n)
    case ThreadOnly(t) => FitsUnsigned(spec.objectId, t)
    case ClassOnly(c) => FitsUnsigned(spec.referenceTypeId, c)
    case ClassMatch(s) => StringFits(s)
    case ClassExclude(s) => StringFits(s)
    case LocationOnly(l) => LocationFits(spec, l)
    case ExceptionOnly(x, _, _) => FitsUnsigned(spec.referenceTypeId, x)
    case FieldOnly(d, f) => FitsUnsigned(spec.referenceTypeId, d) && FitsUnsigned(spec.fieldId, f)
    case StepOnly(t, s, d) => FitsUnsigned(spec.objectId, t) && FitsSigned(4, s) && FitsSigned(4, d)
    case InstanceOnly(i) => FitsUnsigned(spec.objectId, i)
    case PlatformThreadsOnly => true
  }

  /** The dispatch table `_MODIFIER_CLASSES` and the deserializers behind it. */
  function ReadModifierBody(spec: IdSizesSpec, kind: byte, data: bytes, off: int): Read<EventModifier> {
    match kind
    case 1 =>
      var (n, o) :- ReadInt(data, off);
      Ok((Count(n), o))
    case 2 =>
      var (n, o) :- ReadInt(data, off);
      Ok((Conditional(n), o))
    case 3 =>
      var (t, o) :- ReadUnsigned(spec.objectId, data, off);
      Ok((ThreadOnly(t), o))
    case 4 =>
      var (c, o) :- ReadUnsigned(spec.referenceTypeId, data, off);
      Ok((ClassOnly(c), o))
    case 5 =>
      var (s, o) :- ReadString(data, off);
      Ok((ClassMatch(s), o))
    case 6 =>
      var (s, o) :- ReadString(data, off);
      Ok((ClassExclude(s), o))
    case 7 =>
      var (l, o) :- ReadLocation(spec, data, off);
      Ok((LocationOnly(l), o))
    case 8 =>
      var (x, o1) :- ReadUnsigned(spec.referenceTypeId, data, off);
      var (c, o2) :- ReadBoolean(data, o1);
      var (u, o3) :- ReadBoolean(data, o2);
      Ok((ExceptionOnly(x, c, u), o3))
    case 9 =>
      var (d, o1) :- ReadUnsigned(spec.referenceTypeId, data, off);
      var (f, o2) :- ReadUnsigned(spec.fieldId, data, o1);
      Ok((FieldOnly(d, f), o2))
    case 10 =>
      var (t, o1) :- ReadUnsigned(spec.objectId, data, off);
      var (s, o2) :- ReadInt(data, o1);
      var (d, o3) :- ReadInt(data, o2);
      Ok((StepOnly(t, s, d), o3))
    case 11 =>
      var (i, o) :- ReadUnsigned(spec.objectId, data, off);
      Ok((InstanceOnly(i), o))
    case 14 => Ok((PlatformThreadsOnly, off))
    case _ => Err(ValueError)
  }

  function ReadModifier(spec: IdSizesSpec, data: bytes, off: int): Read<EventModifier> {
    var (kind, o) :- ReadByte(data, off);
    ReadModifierBody(spec, kind, data, o)
  }

  // ----- round trip -----

  predicate HasManyFields(m: EventModifier) {
    m.ExceptionOnly? || m.FieldOnly? || m.StepOnly?
  }

  lemma ManyFieldsDelimit(spec: IdSizesSpec, m: EventModifier, data: bytes, off: int)
    requires HasManyFields(m) && ModifierFits(spec, m) && At(data, off, EncodeModifierBody(spec, m))
    ensures ReadModifierBody(spec, m.ModKind(), data, off) == Ok((m, off + |EncodeModifierBody(spec, m)|))
  {
    hide At, BigEndian, ReadUnsigned, ReadSigned, FitsUnsigned, FitsSigned;
    FieldsDelimit(data);
  }

  lemma ModifierBodyDelimits(spec: IdSizesSpec, m: EventModifier, data: bytes, off: int)
    requires ModifierFits(spec, m) && At(data, off, EncodeModifierBody(spec, m))
    ensures ReadModifierBody(spec, m.ModKind(), data, off) == Ok((m, off + |EncodeModifierBody(spec, m)|))
  {
    hide At, BigEndian, ReadUnsigned, ReadSigned, FitsUnsigned, FitsSigned, EncodeLocation, ReadLocation,
         EncodeString, ReadString;
    match m {
      case Count(n) => SignedDelimits(4, n, data, off);
      case Conditional(n) => SignedDelimits(4, n, data, off);
      case ThreadOnly(t) => UnsignedDelimits(spec.objectId, t, data, off);
      case ClassOnly(c) => UnsignedDelimits(spec.referenceTypeId, c, data, off);
      case ClassMatch(s) => StringDelimits(s, data, off);
      case ClassExclude(s) => StringDelimits(s, data, off);
      case LocationOnly(l) => LocationDelimits(spec, l, data, off);
      case InstanceOnly(i) => UnsignedDelimits(spec.objectId, i, data, off);
      case PlatformThreadsOnly =>
      case _ => ManyFieldsDelimit(spec, m, data, off);
    }
  }

  lemma ModifierDelimits(spec: IdSizesSpec, m: EventModifier, data: bytes, off: int)
    requires ModifierFits(spec, m) && At(data, off, EncodeModifier(spec, m))
    ensures ReadModifier(spec, data, off) == Ok((m, off + |EncodeModifier(spec, m)|))
  {
    hide ReadModifierBody, EncodeModifierBody, ModifierFits, At;
    AtConcat(data, off, [m.ModKind()], EncodeModifierBody(spec, m));
    ByteDelimits(m.ModKind(), data, off);
    ModifierBodyDelimits(spec, m, data, off + 1);
  }

  /** The table and the MOD_KIND constants agree: what an entry decodes has the kind it was found under. */
  lemma DispatchAgrees(spec: IdSizesSpec, kind: byte, data: bytes, off: int)
    requires ReadModifierBody(spec, kind, data, off).Ok?
    ensures ReadModifierBody(spec, kind, data, off).value.0.ModKind() == kind
  {
    hide ReadUnsigned, ReadSigned, ReadString, ReadLocation, ReadBoolean;
  }

  // ----- EventRequest.Set -----

  function ModifierEncoder(spec: IdSizesSpec): EventModifier -> bytes {
    (m: EventModifier) => EncodeModifier(spec, m)
  }

  function ModifierDecoder(spec: IdSizesSpec): Decoder<EventModifier> {
    (data: bytes, off: int) => ReadModifier(spec, data, off)
  }

  function ModifierFitter(spec: IdSizesSpec): EventModifier -> bool {
    (m: EventModifier) => ModifierFits(spec, m)
  }

  function EncodeSet(spec: IdSizesSpec, c: SetRequest): bytes {
    [c.eventKind.Code()] + ([c.suspendPolicy.Code()] + EncodeCounted(ModifierEncoder(spec), c.modifiers))
  }

  function ReadSet(spec: IdSizesSpec, data: bytes, off: int): Read<SetRequest> {
    var (k, o1) :- ReadByte(data, off);
    var kind :- EventKindOfCode(k);
    var (p, o2) :- ReadByte(data, o1);
    var policy :- SuspendPolicyOfCode(p);
    var (modifiers, o3) :- ReadCounted(ModifierDecoder(spec), data, o2);
    Ok((SetRequest(kind, policy, modifiers), o3))
  }

  ghost predicate SetFits(spec: IdSizesSpec, c: SetRequest) {
    FitsSigned(4, |c.modifiers|) && AllFit(ModifierFitter(spec), c.modifiers)
  }

  lemma ModifiersSelfDelimiting(spec: IdSizesSpec)
    ensures SelfDelimiting(ModifierEncoder(spec), ModifierDecoder(spec), ModifierFitter(spec))
  {
    hide EncodeModifier, ReadModifier, ModifierFits, At;
    forall m: EventModifier, data: bytes, off: int
      | ModifierFits(spec, m) && At(data, off, ModifierEncoder(spec)(m))
      ensures ModifierDecoder(spec)(data, off) == Ok((m, off + |ModifierEncoder(spec)(m)|))
    {
      ModifierDelimits(spec, m, data, off);
    }
  }

  /** Wherever a Set request's encoding stands, whatever follows it, decoding gives it back exactly. */
  lemma SetDelimits(spec: IdSizesSpec, c: SetRequest, data: bytes, off: int)
    requires SetFits(spec, c) && At(data, off, EncodeSet(spec, c))
    ensures ReadSet(spec, data, off) == Ok((c, off + |EncodeSet(spec, c)|))
  {
    hide EncodeModifier, ReadModifier, ModifierFits, At, ReadCounted, EncodeCounted, SelfDelimiting;
    var list := EncodeCounted(ModifierEncoder(spec), c.modifiers);
    AtConcat(data, off, [c.eventKind.Code()], [c.suspendPolicy.Code()] + list);
    AtConcat(data, off + 1, [c.suspendPolicy.Code()], list);
    ByteDelimits(c.eventKind.Code(), data, off);
    ByteDelimits(c.suspendPolicy.Code(), data, off + 1);
    ModifiersSelfDelimiting(spec);
    CountedDelimits(ModifierEncoder(spec), ModifierDecoder(spec), ModifierFitter(spec), c.modifiers, data, off + 2);
  }

  lemma SetPrefixFree(spec: IdSizesSpec, c: SetRequest, s: bytes, d: SetRequest, t: bytes)
    requires SetFits(spec, c) && SetFits(spec, d)
    requires EncodeSet(spec, c) + s == EncodeSet(spec, d) + t
    ensures c == d && s == t
  {
    hide EncodeSet, ReadSet, SetFits, At;
    var enc := (x: SetRequest) => EncodeSet(spec, x);
    var dec := (data: bytes, off: int) => ReadSet(spec, data, off);
    var fits := (x: SetRequest) => SetFits(spec, x);
    forall x: SetRequest, data: bytes, off: int | fits(x) && At(data, off, enc(x))
      ensures dec(data, off) == Ok((x, off + |enc(x)|))
    {
      SetDelimits(spec, x, data, off);
    }
    PrefixFree(enc, dec, fits, c, s, d, t);
  }

  // ----- the stateful serializers -----

  method SerializeManyFields(w: JdwpWriter, m: EventModifier) returns (r: Outcome)
    requires HasManyFields(m)
    modifies w
    ensures r.Pass? <==> ModifierFits(w.spec, m)
    ensures r.Pass? ==> w.buffer == old(w.buffer) + EncodeModifierBody(w.spec, m)
  {
    hide BigEndian, FitsSigned, FitsUnsigned;
    AppendedTo(w.buffer);
    match m {
      case ExceptionOnly(exceptionOrNull, caught, uncaught) =>
        :- w.WriteReferenceTypeId(exceptionOrNull);
        w.WriteBoolean(caught);
        w.WriteBoolean(uncaught);
        r := Pass;
      case FieldOnly(declaring, field) =>
        :- w.WriteReferenceTypeId(declaring);
        r := w.WriteFieldId(field);
      case StepOnly(thread, size, depth) =>
        :- w.WriteObjectId(thread);
        :- w.WriteInt(size);
        r := w.WriteInt(depth);
    }
  }

  method SerializeModifierBody(w: JdwpWriter, m: EventModifier) returns (r: Outcome)
    modifies w
    ensures r.Pass? <==> ModifierFits(w.spec, m)
    ensures r.Pass? ==> w.buffer == old(w.buffer) + EncodeModifierBody(w.spec, m)
  {
    hide EncodeLocation, EncodeString, BigEndian, LocationFits, StringFits, FitsSigned, FitsUnsigned;
    match m {
      case Count(count) => r := w.WriteInt(count);
      case Conditional(exprId) => r := w.WriteInt(exprId);
      case ThreadOnly(thread) => r := w.WriteObjectId(thread);
      case ClassOnly(clazz) => r := w.WriteReferenceTypeId(clazz);
      case ClassMatch(classPattern) => r := w.WriteString(classPattern);
      case ClassExclude(classPattern) => r := w.WriteString(classPattern);
      case LocationOnly(loc) => r := w.WriteLocation(loc);
      case InstanceOnly(instance) => r := w.WriteObjectId(instance);
      case PlatformThreadsOnly => r := Pass;
      case _ => r := SerializeManyFields(w, m);
    }
  }

  method SerializeModifier(w: JdwpWriter, m: EventModifier) returns (r: Outcome)
    modifies w
    ensures r.Pass? <==> ModifierFits(w.spec, m)
    ensures r.Pass? ==> w.buffer == old(w.buffer) + EncodeModifier(w.spec, m)
  {
    hide EncodeModifierBody, ModifierFits;
    Regroup(w.buffer, [m.ModKind()], EncodeModifierBody(w.spec, m));
    w.WriteByte(m.ModKind());
    r := SerializeModifierBody(w, m);
  }

  method DeserializeModifier(r: JdwpReader) returns (res: Result<EventModifier>)
    modifies r
    ensures Agrees(res, r.offset, ReadModifier(r.spec, r.data, old(r.offset)))
  {
    hide ReadUnsigned, ReadSigned, ReadString, ReadLocation, ReadBoolean, Wire.ReadByte;
    var kind :- r.ReadByte();
    match kind {
      case 1 =>
        var count :- r.ReadInt();
        return Ok(Count(count));
      case 2 =>
        var exprId :- r.ReadInt();
        return Ok(Conditional(exprId));
      case 3 =>
        var thread :- r.ReadObjectId();
        return Ok(ThreadOnly(thread));
      case 4 =>
        var clazz :- r.ReadReferenceTypeId();
        return Ok(ClassOnly(clazz));
      case 5 =>
        var classPattern :- r.ReadString();
        return Ok(ClassMatch(classPattern));
      case 6 =>
        var classPattern :- r.ReadString();
        return Ok(ClassExclude(classPattern));
      case 7 =>
        var loc :- r.ReadLocation();
        return Ok(LocationOnly(loc));
      case 8 =>
        var exceptionOrNull :- r.ReadReferenceTypeId();
        var caught :- r.ReadBoolean();
        var uncaught :- r.ReadBoolean();
        return Ok(ExceptionOnly(exceptionOrNull, caught, uncaught));
      case 9 =>
        var declaring :- r.ReadReferenceTypeId();
        var field :- r.ReadFieldId();
        return Ok(FieldOnly(declaring, field));
      case 10 =>
        var thread :- r.ReadObjectId();
        var size :- r.ReadInt();
        var depth :- r.ReadInt();
        return Ok(StepOnly(thread, size, depth));
      case 11 =>
        var instance :- r.ReadObjectId();
        return Ok(InstanceOnly(instance));
      case 14 =>
        return Ok(PlatformThreadsOnly);
      case _ =>
        return Err(ValueError);
    }
  }

  /** The count and the loop over the modifiers. */
  method SerializeModifiers(w: JdwpWriter, modifiers: seq<EventModifier>) returns (r: Outcome)
    modifies w
    ensures r.Pass? <==> FitsSigned(4, |modifiers|) && AllFit(ModifierFitter(w.spec), modifiers)
    ensures r.Pass? ==> w.buffer == old(w.buffer) + EncodeCounted(ModifierEncoder(w.spec), modifiers)
  {
    hide EncodeModifier, ModifierFits, BigEndian;
    :- w.WriteInt(|modifiers|);
    ghost var head := w.buffer;
    for i := 0 to |modifiers|
      invariant AllFit(ModifierFitter(w.spec), modifiers[..i])
      invariant w.buffer == head + EncodeAll(ModifierEncoder(w.spec), modifiers[..i])
    {
      Regroup(head, EncodeAll(ModifierEncoder(w.spec), modifiers[..i]), EncodeModifier(w.spec, modifiers[i]));
      :- SerializeModifier(w, modifiers[i]);
      assert modifiers[..i + 1] == modifiers[..i] + [modifiers[i]];
      EncodeAllSnoc(ModifierEncoder(w.spec), modifiers[..i], modifiers[i]);
    }
    assert modifiers[..|modifiers|] == modifiers;
    Regroup(old(w.buffer), EncodeInt(|modifiers|), EncodeAll(ModifierEncoder(w.spec), modifiers));
    return Pass;
  }

  method SerializeSet(w: JdwpWriter, c: SetRequest) returns (r: Outcome)
    modifies w
    ensures r.Pass? <==> SetFits(w.spec, c)
    ensures r.Pass? ==> w.buffer == old(w.buffer) + EncodeSet(w.spec, c)
  {
    hide EncodeCounted, ModifierFits, EncodeModifier, AllFit, FitsSigned;
    ghost var list := EncodeCounted(ModifierEncoder(w.spec), c.modifiers);
    Regroup(w.buffer, [c.eventKind.Code()], [c.suspendPolicy.Code()] + list);
    Regroup(w.buffer + [c.eventKind.Code()], [c.suspendPolicy.Code()], list);
    w.WriteByte(c.eventKind.Code());
    w.WriteByte(c.suspendPolicy.Code());
    r := SerializeModifiers(w, c.modifiers);
  }

  method DeserializeSet(r: JdwpReader) returns (res: Result<SetRequest>)
    modifies r
    ensures Agrees(res, r.offset, ReadSet(r.spec, r.data, old(r.offset)))
  {
    hide ReadModifier, Wire.ReadByte, ReadSigned;
    var k :- r.ReadByte();
    var kind :- EventKindOfCode(k);
    var p :- r.ReadByte();
    var policy :- SuspendPolicyOfCode(p);
    var numModifiers :- r.ReadInt();
    ghost var start := r.offset;
    var modifiers: seq<EventModifier> := [];
    var i := 0;
    while i < numModifiers
      invariant 0 <= i && (i <= numModifiers || i == 0)
      invariant ReadMany(ModifierDecoder(r.spec), i, r.data, start) == Ok((modifiers, r.offset))
    {
      var m := DeserializeModifier(r);
      if m.Err? {
        ReadManyStuck(ModifierDecoder(r.spec), i, numModifiers, r.data, start);
        return Err(m.error);
      }
      modifiers := modifiers + [m.value];
      i := i + 1;
    }
    return Ok(SetRequest(kind, policy, modifiers));
  }
}
