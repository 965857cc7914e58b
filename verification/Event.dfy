/** The 18 event kinds and Event.Composite (commands/event.py): pure codec and round trip. */
module Event {
  import opened Results
  import opened Bytes
  import opened Constants
  import opened Spec
  import opened Wire
  import opened Lists
  import opened Io

  datatype JdwpEvent =
    | VMStart(requestId: int, thread: int)
    | SingleStep(requestId: int, thread: int, location: Location)
    | Breakpoint(requestId: int, thread: int, location: Location)
    | MethodEntry(requestId: int, thread: int, location: Location)
    | MethodExit(requestId: int, thread: int, location: Location)
    | MethodExitWithReturnValue(requestId: int, thread: int, location: Location, value: JdwpValue)
    | MonitorContendedEnter(requestId: int, thread: int, object_: TaggedObjectId, location: Location)
    | MonitorContendedEntered(requestId: int, thread: int, object_: TaggedObjectId, location: Location)
    | MonitorWait(requestId: int, thread: int, object_: TaggedObjectId, location: Location, timeout: int)
    | MonitorWaited(requestId: int, thread: int, object_: TaggedObjectId, location: Location, timedOut: bool)
    | Exception(requestId: int, thread: int, location: Location, exception: TaggedObjectId,
                catchLocation: Location)
    | ThreadStart(requestId: int, thread: int)
    | ThreadDeath(requestId: int, thread: int)
    | ClassPrepare(requestId: int, thread: int, refTypeTag: JdwpTypeTag, typeId: int, signature: bytes,
                   status: nat)
    | ClassUnload(requestId: int, signature: bytes)
    | FieldAccess(requestId: int, thread: int, location: Location, refTypeTag: JdwpTypeTag, typeId: int,
                  fieldId: int, object_: TaggedObjectId)
    | FieldModification(requestId: int, thread: int, location: Location, refTypeTag: JdwpTypeTag,
                        typeId: int, fieldId: int, object_: TaggedObjectId, valueToBe: JdwpValue)
    | VMDeath(requestId: int)
  {
    function Kind(): JdwpEventKind {
      match this
      case VMStart(_, _) => VM_START
      case SingleStep(_, _, _) => SINGLE_STEP
      case Breakpoint(_, _, _) => BREAKPOINT
      case MethodEntry(_, _, _) => METHOD_ENTRY
      case MethodExit(_, _, _) => METHOD_EXIT
      case MethodExitWithReturnValue(_, _, _, _) => METHOD_EXIT_WITH_RETURN_VALUE
      case MonitorContendedEnter(_, _, _, _) => MONITOR_CONTENDED_ENTER
      case MonitorContendedEntered(_, _, _, _) => MONITOR_CONTENDED_ENTERED
      case MonitorWait(_, _, _, _, _) => MONITOR_WAIT
      case MonitorWaited(_, _, _, _, _) => MONITOR_WAITED
      case Exception(_, _, _, _, _) => EXCEPTION
      case ThreadStart(_, _) => THREAD_START
      case ThreadDeath(_, _) => THREAD_DEATH
      case ClassPrepare(_, _, _, _, _, _) => CLASS_PREPARE
      case ClassUnload(_, _) => CLASS_UNLOAD
      case FieldAccess(_, _, _, _, _, _, _) => FIELD_ACCESS
      case FieldModification(_, _, _, _, _, _, _, _) => FIELD_MODIFICATION
      case VMDeath(_) => VM_DEATH
    }
  }

  datatype Composite = Composite(suspendPolicy: JdwpSuspendPolicy, events: seq<JdwpEvent>)

  // ----- encoding -----

  function EncodeThread(spec: IdSizesSpec, thread: int): bytes {
    BigEndian(spec.objectId, thread)
  }

  // Runs of fields that several events share.

  function EncodeThreadLocation(spec: IdSizesSpec, thread: int, location: Location): bytes {
    EncodeThread(spec, thread) + EncodeLocation(spec, location)
  }

  function EncodeThreadObjectLocation(spec: IdSizesSpec, thread: int, object_: TaggedObjectId,
                                      location: Location): bytes {
    EncodeThread(spec, thread) + EncodeTaggedObject(spec, object_) + EncodeLocation(spec, location)
  }

  function EncodeClassSite(spec: IdSizesSpec, thread: int, refTypeTag: JdwpTypeTag, typeId: int): bytes {
    EncodeThread(spec, thread) + [refTypeTag.Code()] + BigEndian(spec.referenceTypeId, typeId)
  }

  function EncodeFieldSite(spec: IdSizesSpec, thread: int, location: Location, refTypeTag: JdwpTypeTag,
                           typeId: int, fieldId: int, object_: TaggedObjectId): bytes {
    EncodeThreadLocation(spec, thread, location) + [refTypeTag.Code()]
    + BigEndian(spec.referenceTypeId, typeId) + BigEndian(spec.fieldId, fieldId)
    + EncodeTaggedObject(spec, object_)
  }

  function EncodeEventBody(spec: IdSizesSpec, e: JdwpEvent): bytes {
    match e
    case VMStart(_, t) => EncodeThread(spec, t)
    case SingleStep(_, t, l) => EncodeThreadLocation(spec, t, l)
    case Breakpoint(_, t, l) => EncodeThreadLocation(spec, t, l)
    case MethodEntry(_, t, l) => EncodeThreadLocation(spec, t, l)
    case MethodExit(_, t, l) => EncodeThreadLocation(spec, t, l)
    case MethodExitWithReturnValue(_, t, l, v) =>
      EncodeThreadLocation(spec, t, l) + EncodeValue(spec, v)
    case MonitorContendedEnter(_, t, x, l) =>
      EncodeThreadObjectLocation(spec, t, x, l)
    case MonitorContendedEntered(_, t, x, l) =>
      EncodeThreadObjectLocation(spec, t, x, l)
    case MonitorWait(_, t, x, l, timeout) =>
      EncodeThreadObjectLocation(spec, t, x, l) + EncodeLong(timeout)
    case MonitorWaited(_, t, x, l, timedOut) =>
      EncodeThreadObjectLocation(spec, t, x, l) + EncodeBoolean(timedOut)
    case Exception(_, t, l, x, c) =>
      EncodeThreadLocation(spec, t, l) + EncodeTaggedObject(spec, x) + EncodeLocation(spec, c)
    case ThreadStart(_, t) => EncodeThread(spec, t)
    case ThreadDeath(_, t) => EncodeThread(spec, t)
    case ClassPrepare(_, t, r, i, s, status) =>
      EncodeClassSite(spec, t, r, i) + EncodeString(s) + EncodeInt(status)
    case ClassUnload(_, s) => EncodeString(s)
    case FieldAccess(_, t, l, r, i, f, x) => EncodeFieldSite(spec, t, l, r, i, f, x)
    case FieldModification(_, t, l, r, i, f, x, v) =>
      EncodeFieldSite(spec, t, l, r, i, f, x) + EncodeValue(spec, v)
    case VMDeath(_) => []
  }

  function EncodeEvent(spec: IdSizesSpec, e: JdwpEvent): bytes {
    [e.Kind().Code()] + EncodeInt(e.requestId) + EncodeEventBody(spec, e)
  }

  predicate EventFits(spec: IdSizesSpec, e: JdwpEvent) {
    && FitsSigned(4, e.requestId)
    && (!e.VMDeath? && !e.ClassUnload? ==> FitsUnsigned(spec.objectId, e.thread))
    && match e
       case VMStart(_, _) | ThreadStart(_, _) | ThreadDeath(_, _) | VMDeath(_) => true
       case SingleStep(_, _, l) => LocationFits(spec, l)
       case Breakpoint(_, _, l) => LocationFits(spec, l)
       case MethodEntry(_, _, l) => LocationFits(spec, l)
       case MethodExit(_, _, l) => LocationFits(spec, l)
       case MethodExitWithReturnValue(_, _, l, v) => LocationFits(spec, l) && ValueFits(spec, v)
       case MonitorContendedEnter(_, _, x, l) => TaggedObjectFits(spec, x) && LocationFits(spec, l)
       case MonitorContendedEntered(_, _, x, l) => TaggedObjectFits(spec, x) && LocationFits(spec, l)
       case MonitorWait(_, _, x, l, timeout) =>
         TaggedObjectFits(spec, x) && LocationFits(spec, l) && FitsSigned(8, timeout)
       case MonitorWaited(_, _, x, l, _) => TaggedObjectFits(spec, x) && LocationFits(spec, l)
       case Exception(_, _, l, x, c) =>
         LocationFits(spec, l) && TaggedObjectFits(spec, x) && LocationFits(spec, c)
       case ClassPrepare(_, _, _, i, s, status) =>
         FitsUnsigned(spec.referenceTypeId, i) && StringFits(s) && FitsSigned(4, status)
       case ClassUnload(_, s) => StringFits(s)
       case FieldAccess(_, _, l, _, i, f, x) =>
         && LocationFits(spec, l) && FitsUnsigned(spec.referenceTypeId, i)
         && FitsUnsigned(spec.fieldId, f) && TaggedObjectFits(spec, x)
       case FieldModification(_, _, l, _, i, f, x, v) =>
         && LocationFits(spec, l) && FitsUnsigned(spec.referenceTypeId, i)
         && FitsUnsigned(spec.fieldId, f) && TaggedObjectFits(spec, x) && ValueFits(spec, v)
  }

  // ----- decoding -----

  function ReadThread(spec: IdSizesSpec, data: bytes, off: int): Read<int> {
    ReadUnsigned(spec.objectId, data, off)
  }

  function ReadThreadLocation(spec: IdSizesSpec, data: bytes, off: int): Read<(int, Location)> {
    var (t, o1) :- ReadThread(spec, data, off);
    var (l, o2) :- ReadLocation(spec, data, o1);
    Ok(((t, l), o2))
  }

  function ReadThreadObjectLocation(spec: IdSizesSpec, data: bytes, off: int)
    : Read<(int, TaggedObjectId, Location)>
  {
    var (t, o1) :- ReadThread(spec, data, off);
    var (x, o2) :- ReadTaggedObject(spec, data, o1);
    var (l, o3) :- ReadLocation(spec, data, o2);
    Ok(((t, x, l), o3))
  }

  function ReadClassSite(spec: IdSizesSpec, data: bytes, off: int): Read<(int, JdwpTypeTag, int)> {
    var (t, o1) :- ReadThread(spec, data, off);
    var (r, o2) :- ReadTypeTag(data, o1);
    var (i, o3) :- ReadUnsigned(spec.referenceTypeId, data, o2);
    Ok(((t, r, i), o3))
  }

  function ReadFieldSite(spec: IdSizesSpec, data: bytes, off: int)
    : Read<(int, Location, JdwpTypeTag, int, int, TaggedObjectId)>
  {
    var ((t, l), o1) :- ReadThreadLocation(spec, data, off);
    var (r, o2) :- ReadTypeTag(data, o1);
    var (i, o3) :- ReadUnsigned(spec.referenceTypeId, data, o2);
    var (f, o4) :- ReadUnsigned(spec.fieldId, data, o3);
    var (x, o5) :- ReadTaggedObject(spec, data, o4);
    Ok(((t, l, r, i, f, x), o5))
  }

  function ReadEventBody(spec: IdSizesSpec, kind: JdwpEventKind, id: int, data: bytes, off: int): Read<JdwpEvent> {
    match kind
    case VM_START =>
      var (t, o) :- ReadThread(spec, data, off);
      Ok((VMStart(id, t), o))
    case SINGLE_STEP =>
      var ((t, l), o) :- ReadThreadLocation(spec, data, off);
      Ok((SingleStep(id, t, l), o))
    case BREAKPOINT =>
      var ((t, l), o) :- ReadThreadLocation(spec, data, off);
      Ok((Breakpoint(id, t, l), o))
    case METHOD_ENTRY =>
      var ((t, l), o) :- ReadThreadLocation(spec, data, off);
      Ok((MethodEntry(id, t, l), o))
    case METHOD_EXIT =>
      var ((t, l), o) :- ReadThreadLocation(spec, data, off);
      Ok((MethodExit(id, t, l), o))
    case METHOD_EXIT_WITH_RETURN_VALUE =>
      var ((t, l), o1) :- ReadThreadLocation(spec, data, off);
      var (v, o2) :- ReadValue(spec, data, o1);
      Ok((MethodExitWithReturnValue(id, t, l, v), o2))
    case MONITOR_CONTENDED_ENTER =>
      var ((t, x, l), o3) :- ReadThreadObjectLocation(spec, data, off);
      Ok((MonitorContendedEnter(id, t, x, l), o3))
    case MONITOR_CONTENDED_ENTERED =>
      var ((t, x, l), o3) :- ReadThreadObjectLocation(spec, data, off);
      Ok((MonitorContendedEntered(id, t, x, l), o3))
    case MONITOR_WAIT =>
      var ((t, x, l), o3) :- ReadThreadObjectLocation(spec, data, off);
      var (n, o4) :- ReadLong(data, o3);
      Ok((MonitorWait(id, t, x, l, n), o4))
    case MONITOR_WAITED =>
      var ((t, x, l), o3) :- ReadThreadObjectLocation(spec, data, off);
      var (b, o4) :- ReadBoolean(data, o3);
      Ok((MonitorWaited(id, t, x, l, b), o4))
    case EXCEPTION =>
      var ((t, l), o2) :- ReadThreadLocation(spec, data, off);
      var (x, o3) :- ReadTaggedObject(spec, data, o2);
      var (c, o4) :- ReadLocation(spec, data, o3);
      Ok((Exception(id, t, l, x, c), o4))
    case THREAD_START =>
      var (t, o) :- ReadThread(spec, data, off);
      Ok((ThreadStart(id, t), o))
    case THREAD_DEATH =>
      var (t, o) :- ReadThread(spec, data, off);
      Ok((ThreadDeath(id, t), o))
    case CLASS_PREPARE =>
      var ((t, r, i), o3) :- ReadClassSite(spec, data, off);
      var (s, o4) :- ReadString(data, o3);
      var (status, o5) :- ReadInt(data, o4);
      Ok((ClassPrepare(id, t, r, i, s, ClassStatusOf(status)), o5))
    case CLASS_UNLOAD =>
      var (s, o) :- ReadString(data, off);
      Ok((ClassUnload(id, s), o))
    case FIELD_ACCESS =>
      var ((t, l, r, i, f, x), o6) :- ReadFieldSite(spec, data, off);
      Ok((FieldAccess(id, t, l, r, i, f, x), o6))
    case FIELD_MODIFICATION =>
      var ((t, l, r, i, f, x), o6) :- ReadFieldSite(spec, data, off);
      var (v, o7) :- ReadValue(spec, data, o6);
      Ok((FieldModification(id, t, l, r, i, f, x, v), o7))
    case VM_DEATH => Ok((VMDeath(id), off))
    case _ => Err(ValueError)
  }

  function ReadEvent(spec: IdSizesSpec, data: bytes, off: int): Read<JdwpEvent> {
    var (b, o1) :- ReadByte(data, off);
    var kind :- EventKindOfCode(b);
    var (id, o2) :- ReadInt(data, o1);
    ReadEventBody(spec, kind, id, data, o2)
  }

  // ----- round trip -----

  lemma PartsDelimit(spec: IdSizesSpec, data: bytes)
    ensures forall l: Location, off: int {:trigger At(data, off, EncodeLocation(spec, l))} ::
              LocationFits(spec, l) && At(data, off, EncodeLocation(spec, l)) ==>
                ReadLocation(spec, data, off) == Ok((l, off + |EncodeLocation(spec, l)|))
    ensures forall t: TaggedObjectId, off: int {:trigger At(data, off, EncodeTaggedObject(spec, t))} ::
              TaggedObjectFits(spec, t) && At(data, off, EncodeTaggedObject(spec, t)) ==>
                ReadTaggedObject(spec, data, off) == Ok((t, off + |EncodeTaggedObject(spec, t)|))
    ensures forall v: JdwpValue, off: int {:trigger At(data, off, EncodeValue(spec, v))} ::
              ValueFits(spec, v) && At(data, off, EncodeValue(spec, v)) ==>
                ReadValue(spec, data, off) == Ok((v, off + |EncodeValue(spec, v)|))
    ensures forall s: bytes, off: int {:trigger At(data, off, EncodeString(s))} ::
              StringFits(s) && At(data, off, EncodeString(s)) ==>
                ReadString(data, off) == Ok((s, off + |EncodeString(s)|))
  {
    forall l: Location, off: int | LocationFits(spec, l) && At(data, off, EncodeLocation(spec, l))
      ensures ReadLocation(spec, data, off) == Ok((l, off + |EncodeLocation(spec, l)|))
    {
      LocationDelimits(spec, l, data, off);
    }
    forall t: TaggedObjectId, off: int | TaggedObjectFits(spec, t) && At(data, off, EncodeTaggedObject(spec, t))
      ensures ReadTaggedObject(spec, data, off) == Ok((t, off + |EncodeTaggedObject(spec, t)|))
    {
      TaggedObjectDelimits(spec, t, data, off);
    }
    forall v: JdwpValue, off: int | ValueFits(spec, v) && At(data, off, EncodeValue(spec, v))
      ensures ReadValue(spec, data, off) == Ok((v, off + |EncodeValue(spec, v)|))
    {
      ValueDelimits(spec, v, data, off);
    }
    forall s: bytes, off: int | StringFits(s) && At(data, off, EncodeString(s))
      ensures ReadString(data, off) == Ok((s, off + |EncodeString(s)|))
    {
      StringDelimits(s, data, off);
    }
  }

  lemma ThreadLocationDelimits(spec: IdSizesSpec, t: int, l: Location, data: bytes, off: int)
    requires FitsUnsigned(spec.objectId, t) && LocationFits(spec, l)
    requires At(data, off, EncodeThreadLocation(spec, t, l))
    ensures ReadThreadLocation(spec, data, off) == Ok(((t, l), off + |EncodeThreadLocation(spec, t, l)|))
  {
    AtConcat(data, off, EncodeThread(spec, t), EncodeLocation(spec, l));
    UnsignedDelimits(spec.objectId, t, data, off);
    LocationDelimits(spec, l, data, off + spec.objectId);
  }

  lemma ThreadObjectLocationDelimits(spec: IdSizesSpec, t: int, x: TaggedObjectId, l: Location,
                                     data: bytes, off: int)
    requires FitsUnsigned(spec.objectId, t) && TaggedObjectFits(spec, x) && LocationFits(spec, l)
    requires At(data, off, EncodeThreadObjectLocation(spec, t, x, l))
    ensures ReadThreadObjectLocation(spec, data, off)
            == Ok(((t, x, l), off + |EncodeThreadObjectLocation(spec, t, x, l)|))
  {
    hide EncodeLocation, ReadLocation, EncodeTaggedObject, ReadTaggedObject, At, BigEndian, ReadUnsigned;
    FieldsDelimit(data);
    PartsDelimit(spec, data);
  }

  lemma ClassSiteDelimits(spec: IdSizesSpec, t: int, r: JdwpTypeTag, i: int, data: bytes, off: int)
    requires FitsUnsigned(spec.objectId, t) && FitsUnsigned(spec.referenceTypeId, i)
    requires At(data, off, EncodeClassSite(spec, t, r, i))
    ensures ReadClassSite(spec, data, off) == Ok(((t, r, i), off + |EncodeClassSite(spec, t, r, i)|))
  {
    hide At, BigEndian, ReadUnsigned;
    FieldsDelimit(data);
  }

  lemma FieldSiteDelimits(spec: IdSizesSpec, t: int, l: Location, r: JdwpTypeTag, i: int, f: int,
                          x: TaggedObjectId, data: bytes, off: int)
    requires FitsUnsigned(spec.objectId, t) && LocationFits(spec, l)
    requires FitsUnsigned(spec.referenceTypeId, i) && FitsUnsigned(spec.fieldId, f) && TaggedObjectFits(spec, x)
    requires At(data, off, EncodeFieldSite(spec, t, l, r, i, f, x))
    ensures ReadFieldSite(spec, data, off)
            == Ok(((t, l, r, i, f, x), off + |EncodeFieldSite(spec, t, l, r, i, f, x)|))
  {
    hide EncodeThreadLocation, ReadThreadLocation, EncodeTaggedObject, ReadTaggedObject, At, BigEndian,
         ReadUnsigned;
    FieldsDelimit(data);
    PartsDelimit(spec, data);
    ThreadLocationDelimits(spec, t, l, data, off);
  }

  lemma LocationEventDelimits(spec: IdSizesSpec, e: JdwpEvent, data: bytes, off: int)
    requires e.SingleStep? || e.Breakpoint? || e.MethodEntry? || e.MethodExit?
    requires EventFits(spec, e) && At(data, off, EncodeEventBody(spec, e))
    ensures ReadEventBody(spec, e.Kind(), e.requestId, data, off)
            == Ok((e, off + |EncodeEventBody(spec, e)|))
  {
    hide EncodeLocation, ReadLocation, EncodeTaggedObject, ReadTaggedObject, EncodeValue, ReadValue,
         EncodeString, ReadString, At, BigEndian, ReadSigned, EncodeFieldSite, ReadFieldSite,
         EncodeThreadLocation, ReadThreadLocation, EncodeThreadObjectLocation, ReadThreadObjectLocation,
         EncodeClassSite, ReadClassSite;
    ThreadLocationDelimits(spec, e.thread, e.location, data, off);
  }

  /** The two kinds with more after the thread and the location. */
  lemma ValueEventDelimits(spec: IdSizesSpec, e: JdwpEvent, data: bytes, off: int)
    requires e.MethodExitWithReturnValue? || e.Exception?
    requires EventFits(spec, e) && At(data, off, EncodeEventBody(spec, e))
    ensures ReadEventBody(spec, e.Kind(), e.requestId, data, off)
            == Ok((e, off + |EncodeEventBody(spec, e)|))
  {
    hide EncodeLocation, ReadLocation, EncodeTaggedObject, ReadTaggedObject, EncodeValue, ReadValue,
         EncodeString, ReadString, At, BigEndian, ReadSigned, EncodeFieldSite, ReadFieldSite,
         EncodeThreadLocation, ReadThreadLocation, EncodeThreadObjectLocation, ReadThreadObjectLocation,
         EncodeClassSite, ReadClassSite;
    match e {
      case MethodExitWithReturnValue(_, t, l, v) =>
        var front := EncodeThreadLocation(spec, t, l);
        AtConcat(data, off, front, EncodeValue(spec, v));
        ThreadLocationDelimits(spec, t, l, data, off);
        ValueDelimits(spec, v, data, off + |front|);
      case Exception(_, t, l, x, c) =>
        var front, object_ := EncodeThreadLocation(spec, t, l), EncodeTaggedObject(spec, x);
        AtConcat(data, off, front + object_, EncodeLocation(spec, c));
        AtConcat(data, off, front, object_);
        ThreadLocationDelimits(spec, t, l, data, off);
        TaggedObjectDelimits(spec, x, data, off + |front|);
        LocationDelimits(spec, c, data, off + |front + object_|);
    }
  }

  lemma MonitorEventDelimits(spec: IdSizesSpec, e: JdwpEvent, data: bytes, off: int)
    requires e.MonitorContendedEnter? || e.MonitorContendedEntered? || e.MonitorWait? || e.MonitorWaited?
    requires EventFits(spec, e) && At(data, off, EncodeEventBody(spec, e))
    ensures ReadEventBody(spec, e.Kind(), e.requestId, data, off)
            == Ok((e, off + |EncodeEventBody(spec, e)|))
  {
    hide EncodeLocation, ReadLocation, EncodeTaggedObject, ReadTaggedObject, EncodeValue, ReadValue,
         EncodeString, ReadString, At, BigEndian, ReadSigned, EncodeFieldSite, ReadFieldSite,
         EncodeThreadLocation, ReadThreadLocation, EncodeThreadObjectLocation, ReadThreadObjectLocation,
         EncodeClassSite, ReadClassSite;
    match e {
      case MonitorContendedEnter(_, t, x, l) => ThreadObjectLocationDelimits(spec, t, x, l, data, off);
      case MonitorContendedEntered(_, t, x, l) => ThreadObjectLocationDelimits(spec, t, x, l, data, off);
      case MonitorWait(_, t, x, l, timeout) =>
        var front := EncodeThreadObjectLocation(spec, t, x, l);
        AtConcat(data, off, front, EncodeLong(timeout));
        ThreadObjectLocationDelimits(spec, t, x, l, data, off);
        SignedDelimits(8, timeout, data, off + |front|);
      case MonitorWaited(_, t, x, l, timedOut) =>
        var front := EncodeThreadObjectLocation(spec, t, x, l);
        AtConcat(data, off, front, EncodeBoolean(timedOut));
        ThreadObjectLocationDelimits(spec, t, x, l, data, off);
        ByteDelimits(if timedOut then 1 else 0, data, off + |front|);
    }
  }

  lemma ClassEventDelimits(spec: IdSizesSpec, e: JdwpEvent, data: bytes, off: int)
    requires e.ClassPrepare? || e.ClassUnload?
    requires EventFits(spec, e) && At(data, off, EncodeEventBody(spec, e))
    ensures ReadEventBody(spec, e.Kind(), e.requestId, data, off)
            == Ok((e, off + |EncodeEventBody(spec, e)|))
  {
    hide EncodeLocation, ReadLocation, EncodeTaggedObject, ReadTaggedObject, EncodeValue, ReadValue,
         EncodeString, ReadString, At, BigEndian, ReadSigned, EncodeFieldSite, ReadFieldSite,
         EncodeThreadLocation, ReadThreadLocation, EncodeThreadObjectLocation, ReadThreadObjectLocation,
         EncodeClassSite, ReadClassSite;
    match e {
      case ClassPrepare(_, t, r, i, signature, status) =>
        var front, text := EncodeClassSite(spec, t, r, i), EncodeString(signature);
        AtConcat(data, off, front + text, EncodeInt(status));
        AtConcat(data, off, front, text);
        ClassSiteDelimits(spec, t, r, i, data, off);
        StringDelimits(signature, data, off + |front|);
        SignedDelimits(4, status, data, off + |front + text|);
      case ClassUnload(_, signature) => StringDelimits(signature, data, off);
    }
  }

  lemma FieldEventDelimits(spec: IdSizesSpec, e: JdwpEvent, data: bytes, off: int)
    requires e.FieldAccess? || e.FieldModification?
    requires EventFits(spec, e) && At(data, off, EncodeEventBody(spec, e))
    ensures ReadEventBody(spec, e.Kind(), e.requestId, data, off)
            == Ok((e, off + |EncodeEventBody(spec, e)|))
  {
    hide EncodeLocation, ReadLocation, EncodeTaggedObject, ReadTaggedObject, EncodeValue, ReadValue,
         EncodeString, ReadString, At, BigEndian, ReadSigned, EncodeFieldSite, ReadFieldSite,
         EncodeThreadLocation, ReadThreadLocation, EncodeThreadObjectLocation, ReadThreadObjectLocation,
         EncodeClassSite, ReadClassSite;
    match e {
      case FieldAccess(_, t, l, r, i, f, x) => FieldSiteDelimits(spec, t, l, r, i, f, x, data, off);
      case FieldModification(_, t, l, r, i, f, x, v) =>
        var front := EncodeFieldSite(spec, t, l, r, i, f, x);
        AtConcat(data, off, front, EncodeValue(spec, v));
        FieldSiteDelimits(spec, t, l, r, i, f, x, data, off);
        ValueDelimits(spec, v, data, off + |front|);
    }
  }

  lemma EventBodyDelimits(spec: IdSizesSpec, e: JdwpEvent, data: bytes, off: int)
    requires EventFits(spec, e) && At(data, off, EncodeEventBody(spec, e))
    ensures ReadEventBody(spec, e.Kind(), e.requestId, data, off)
            == Ok((e, off + |EncodeEventBody(spec, e)|))
  {
    if e.SingleStep? || e.Breakpoint? || e.MethodEntry? || e.MethodExit? {
      LocationEventDelimits(spec, e, data, off);
    } else if e.MethodExitWithReturnValue? || e.Exception? {
      ValueEventDelimits(spec, e, data, off);
    } else if e.MonitorContendedEnter? || e.MonitorContendedEntered? || e.MonitorWait? || e.MonitorWaited? {
      MonitorEventDelimits(spec, e, data, off);
    } else if e.ClassPrepare? || e.ClassUnload? {
      ClassEventDelimits(spec, e, data, off);
    } else if e.FieldAccess? || e.FieldModification? {
      FieldEventDelimits(spec, e, data, off);
    } else if !e.VMDeath? {
      UnsignedDelimits(spec.objectId, e.thread, data, off);
    }
  }

  lemma EventDelimits(spec: IdSizesSpec, e: JdwpEvent, data: bytes, off: int)
    requires EventFits(spec, e) && At(data, off, EncodeEvent(spec, e))
    ensures ReadEvent(spec, data, off) == Ok((e, off + |EncodeEvent(spec, e)|))
  {
    hide EncodeEventBody, ReadEventBody, At, BigEndian;
    FieldsDelimit(data);
    EventBodyDelimits(spec, e, data, off + 5);
  }

  /** What the table decodes under a kind is an event of that kind; kinds without a class are rejected. */
  lemma EventDispatchAgrees(spec: IdSizesSpec, kind: JdwpEventKind, id: int, data: bytes, off: int)
    ensures match ReadEventBody(spec, kind, id, data, off)
            case Ok((e, _)) => e.Kind() == kind && e.requestId == id
            case Err(_) => true
    ensures kind in {FRAME_POP, USER_DEFINED, CLASS_LOAD, EXCEPTION_CATCH} ==>
              ReadEventBody(spec, kind, id, data, off) == Err(ValueError)
  {
    hide ReadThread, ReadThreadLocation, ReadThreadObjectLocation, ReadClassSite, ReadFieldSite, ReadValue, ReadString,
         ReadSigned, ReadBoolean, ReadTaggedObject, ReadLocation, ClassStatusOf;
  }

  // ----- Event.Composite -----

  function EventEncoder(spec: IdSizesSpec): JdwpEvent -> bytes {
    (e: JdwpEvent) => EncodeEvent(spec, e)
  }

  function EventDecoder(spec: IdSizesSpec): Decoder<JdwpEvent> {
    (data: bytes, off: int) => ReadEvent(spec, data, off)
  }

  function EventFitter(spec: IdSizesSpec): JdwpEvent -> bool {
    (e: JdwpEvent) => EventFits(spec, e)
  }

  function EncodeComposite(spec: IdSizesSpec, c: Composite): bytes {
    [c.suspendPolicy.Code()] + EncodeCounted(EventEncoder(spec), c.events)
  }

  function ReadComposite(spec: IdSizesSpec, data: bytes, off: int): Read<Composite> {
    var (b, o1) :- ReadByte(data, off);
    var policy :- SuspendPolicyOfCode(b);
    var (events, o2) :- ReadCounted(EventDecoder(spec), data, o1);
    Ok((Composite(policy, events), o2))
  }

  ghost predicate CompositeFits(spec: IdSizesSpec, c: Composite) {
    FitsSigned(4, |c.events|) && AllFit(EventFitter(spec), c.events)
  }

  lemma EventsSelfDelimiting(spec: IdSizesSpec)
    ensures SelfDelimiting(EventEncoder(spec), EventDecoder(spec), EventFitter(spec))
  {
    hide EncodeEvent, ReadEvent, EventFits, At;
    forall e: JdwpEvent, data: bytes, off: int | EventFits(spec, e) && At(data, off, EventEncoder(spec)(e))
      ensures EventDecoder(spec)(data, off) == Ok((e, off + |EventEncoder(spec)(e)|))
    {
      EventDelimits(spec, e, data, off);
    }
  }

  /** Wherever a composite's encoding stands, whatever follows it, decoding gives it back exactly. */
  lemma CompositeDelimits(spec: IdSizesSpec, c: Composite, data: bytes, off: int)
    requires CompositeFits(spec, c) && At(data, off, EncodeComposite(spec, c))
    ensures ReadComposite(spec, data, off) == Ok((c, off + |EncodeComposite(spec, c)|))
  {
    hide EncodeEvent, ReadEvent, EventFits, At, ReadCounted, EncodeCounted, SelfDelimiting;
    AtConcat(data, off, [c.suspendPolicy.Code()], EncodeCounted(EventEncoder(spec), c.events));
    ByteDelimits(c.suspendPolicy.Code(), data, off);
    EventsSelfDelimiting(spec);
    CountedDelimits(EventEncoder(spec), EventDecoder(spec), EventFitter(spec), c.events, data, off + 1);
  }

  /** Decoding encode(c) ++ tail yields c and leaves exactly tail. */
  lemma CompositeRoundTrip(spec: IdSizesSpec, c: Composite, tail: bytes)
    requires CompositeFits(spec, c)
    ensures var data := EncodeComposite(spec, c) + tail;
            && ReadComposite(spec, data, 0) == Ok((c, |data| - |tail|))
            && data[|data| - |tail|..] == tail
  {
    hide EncodeComposite, ReadComposite, CompositeFits;
    CompositeDelimits(spec, c, EncodeComposite(spec, c) + tail, 0);
  }

  lemma CompositePrefixFree(spec: IdSizesSpec, c: Composite, s: bytes, d: Composite, t: bytes)
    requires CompositeFits(spec, c) && CompositeFits(spec, d)
    requires EncodeComposite(spec, c) + s == EncodeComposite(spec, d) + t
    ensures c == d && s == t
  {
    hide EncodeComposite, ReadComposite, CompositeFits, At;
    var enc := (x: Composite) => EncodeComposite(spec, x);
    var dec := (data: bytes, off: int) => ReadComposite(spec, data, off);
    var fits := (x: Composite) => CompositeFits(spec, x);
    forall x: Composite, data: bytes, off: int | fits(x) && At(data, off, enc(x))
      ensures dec(data, off) == Ok((x, off + |enc(x)|))
    {
      CompositeDelimits(spec, x, data, off);
    }
    PrefixFree(enc, dec, fits, c, s, d, t);
  }

  // ----- the stateful serializers -----

  method SerializeThreadLocation(w: JdwpWriter, thread: int, location: Location) returns (r: Outcome)
    modifies w
    ensures r.Pass? <==> FitsUnsigned(w.spec.objectId, thread) && LocationFits(w.spec, location)
    ensures r.Pass? ==> w.buffer == old(w.buffer) + EncodeThreadLocation(w.spec, thread, location)
    ensures old(w.buffer) <= w.buffer
  {
    AppendedTo(w.buffer);
    :- w.WriteObjectId(thread);
    r := w.WriteLocation(location);
  }

  method SerializeThreadObjectLocation(w: JdwpWriter, thread: int, object_: TaggedObjectId, location: Location)
    returns (r: Outcome)
    modifies w
    ensures r.Pass? <==>
              && FitsUnsigned(w.spec.objectId, thread) && TaggedObjectFits(w.spec, object_)
              && LocationFits(w.spec, location)
    ensures r.Pass? ==>
              w.buffer == old(w.buffer) + EncodeThreadObjectLocation(w.spec, thread, object_, location)
    ensures old(w.buffer) <= w.buffer
  {
    hide EncodeLocation, EncodeTaggedObject, BigEndian, LocationFits, TaggedObjectFits, FitsUnsigned;
    AppendedTo(w.buffer);
    :- w.WriteObjectId(thread);
    :- w.WriteTaggedObject(object_);
    r := w.WriteLocation(location);
  }

  method SerializeClassSite(w: JdwpWriter, thread: int, refTypeTag: JdwpTypeTag, typeId: int)
    returns (r: Outcome)
    modifies w
    ensures r.Pass? <==> FitsUnsigned(w.spec.objectId, thread) && FitsUnsigned(w.spec.referenceTypeId, typeId)
    ensures r.Pass? ==> w.buffer == old(w.buffer) + EncodeClassSite(w.spec, thread, refTypeTag, typeId)
    ensures old(w.buffer) <= w.buffer
  {
    hide BigEndian, FitsUnsigned;
    AppendedTo(w.buffer);
    :- w.WriteObjectId(thread);
    w.WriteByte(refTypeTag.Code());
    r := w.WriteReferenceTypeId(typeId);
  }

  method SerializeFieldSite(w: JdwpWriter, thread: int, location: Location, refTypeTag: JdwpTypeTag,
                            typeId: int, fieldId: int, object_: TaggedObjectId)
    returns (r: Outcome)
    modifies w
    ensures r.Pass? <==>
              && FitsUnsigned(w.spec.objectId, thread) && LocationFits(w.spec, location)
              && FitsUnsigned(w.spec.referenceTypeId, typeId) && FitsUnsigned(w.spec.fieldId, fieldId)
              && TaggedObjectFits(w.spec, object_)
    ensures r.Pass? ==>
              w.buffer == old(w.buffer)
              + EncodeFieldSite(w.spec, thread, location, refTypeTag, typeId, fieldId, object_)
    ensures old(w.buffer) <= w.buffer
  {
    hide EncodeThreadLocation, EncodeTaggedObject, BigEndian, LocationFits, TaggedObjectFits, FitsUnsigned;
    AppendedTo(w.buffer);
    :- SerializeThreadLocation(w, thread, location);
    w.WriteByte(refTypeTag.Code());
    :- w.WriteReferenceTypeId(typeId);
    :- w.WriteFieldId(fieldId);
    r := w.WriteTaggedObject(object_);
  }

  method SerializeEventBody(w: JdwpWriter, e: JdwpEvent) returns (r: Outcome)
    requires FitsSigned(4, e.requestId)
    modifies w
    ensures r.Pass? <==> EventFits(w.spec, e)
    ensures r.Pass? ==> w.buffer == old(w.buffer) + EncodeEventBody(w.spec, e)
    ensures old(w.buffer) <= w.buffer
  {
    hide EncodeThreadLocation, EncodeThreadObjectLocation, EncodeClassSite, EncodeFieldSite, EncodeLocation,
         EncodeTaggedObject, EncodeValue, EncodeString, BigEndian, EncodeLong, EncodeInt,
         EncodeBoolean, ValueFits, StringFits, LocationFits, TaggedObjectFits, FitsSigned, FitsUnsigned;
    AppendedTo(w.buffer);
    match e {
      case VMStart(_, thread) =>
        r := w.WriteObjectId(thread);
      case SingleStep(_, thread, location) =>
        r := SerializeThreadLocation(w, thread, location);
      case Breakpoint(_, thread, location) =>
        r := SerializeThreadLocation(w, thread, location);
      case MethodEntry(_, thread, location) =>
        r := SerializeThreadLocation(w, thread, location);
      case MethodExit(_, thread, location) =>
        r := SerializeThreadLocation(w, thread, location);
      case MethodExitWithReturnValue(_, thread, location, value) =>
        :- SerializeThreadLocation(w, thread, location);
        r := w.WriteValue(value);
      case MonitorContendedEnter(_, thread, x, location) =>
        r := SerializeThreadObjectLocation(w, thread, x, location);
      case MonitorContendedEntered(_, thread, x, location) =>
        r := SerializeThreadObjectLocation(w, thread, x, location);
      case MonitorWait(_, thread, x, location, timeout) =>
        :- SerializeThreadObjectLocation(w, thread, x, location);
        r := w.WriteLong(timeout);
      case MonitorWaited(_, thread, x, location, timedOut) =>
        :- SerializeThreadObjectLocation(w, thread, x, location);
        w.WriteBoolean(timedOut);
        return Pass;
      case Exception(_, thread, location, exception, catchLocation) =>
        :- SerializeThreadLocation(w, thread, location);
        :- w.WriteTaggedObject(exception);
        r := w.WriteLocation(catchLocation);
      case ThreadStart(_, thread) =>
        r := w.WriteObjectId(thread);
      case ThreadDeath(_, thread) =>
        r := w.WriteObjectId(thread);
      case ClassPrepare(_, thread, refTypeTag, typeId, signature, status) =>
        :- SerializeClassSite(w, thread, refTypeTag, typeId);
        :- w.WriteString(signature);
        r := w.WriteInt(status);
      case ClassUnload(_, signature) =>
        r := w.WriteString(signature);
      case FieldAccess(_, thread, location, refTypeTag, typeId, fieldId, x) =>
        r := SerializeFieldSite(w, thread, location, refTypeTag, typeId, fieldId, x);
      case FieldModification(_, thread, location, refTypeTag, typeId, fieldId, x, valueToBe) =>
        :- SerializeFieldSite(w, thread, location, refTypeTag, typeId, fieldId, x);
        r := w.WriteValue(valueToBe);
      case VMDeath(_) =>
        return Pass;
    }
  }

  method DeserializeEventBody(r: JdwpReader, kind: JdwpEventKind, id: int) returns (res: Result<JdwpEvent>)
    modifies r
    ensures Agrees(res, r.offset, ReadEventBody(r.spec, kind, id, r.data, old(r.offset)))
  {
    hide ReadLocation, ReadTaggedObject, ReadValue, ReadString, ReadUnsigned, ReadSigned, ReadTypeTag,
         ReadBoolean;
    match kind {
      case VM_START =>
        var thread :- r.ReadObjectId();
        return Ok(VMStart(id, thread));
      case SINGLE_STEP =>
        var thread :- r.ReadObjectId();
        var location :- r.ReadLocation();
        return Ok(SingleStep(id, thread, location));
      case BREAKPOINT =>
        var thread :- r.ReadObjectId();
        var location :- r.ReadLocation();
        return Ok(Breakpoint(id, thread, location));
      case METHOD_ENTRY =>
        var thread :- r.ReadObjectId();
        var location :- r.ReadLocation();
        return Ok(MethodEntry(id, thread, location));
      case METHOD_EXIT =>
        var thread :- r.ReadObjectId();
        var location :- r.ReadLocation();
        return Ok(MethodExit(id, thread, location));
      case METHOD_EXIT_WITH_RETURN_VALUE =>
        var thread :- r.ReadObjectId();
        var location :- r.ReadLocation();
        var value :- r.ReadValue();
        return Ok(MethodExitWithReturnValue(id, thread, location, value));
      case MONITOR_CONTENDED_ENTER =>
        var thread :- r.ReadObjectId();
        var x :- r.ReadTaggedObject();
        var location :- r.ReadLocation();
        return Ok(MonitorContendedEnter(id, thread, x, location));
      case MONITOR_CONTENDED_ENTERED =>
        var thread :- r.ReadObjectId();
        var x :- r.ReadTaggedObject();
        var location :- r.ReadLocation();
        return Ok(MonitorContendedEntered(id, thread, x, location));
      case MONITOR_WAIT =>
        var thread :- r.ReadObjectId();
        var x :- r.ReadTaggedObject();
        var location :- r.ReadLocation();
        var timeout :- r.ReadLong();
        return Ok(MonitorWait(id, thread, x, location, timeout));
      case MONITOR_WAITED =>
        var thread :- r.ReadObjectId();
        var x :- r.ReadTaggedObject();
        var location :- r.ReadLocation();
        var timedOut :- r.ReadBoolean();
        return Ok(MonitorWaited(id, thread, x, location, timedOut));
      case EXCEPTION =>
        var thread :- r.ReadObjectId();
        var location :- r.ReadLocation();
        var exception :- r.ReadTaggedObject();
        var catchLocation :- r.ReadLocation();
        return Ok(Exception(id, thread, location, exception, catchLocation));
      case THREAD_START =>
        var thread :- r.ReadObjectId();
        return Ok(ThreadStart(id, thread));
      case THREAD_DEATH =>
        var thread :- r.ReadObjectId();
        return Ok(ThreadDeath(id, thread));
      case CLASS_PREPARE =>
        var thread :- r.ReadObjectId();
        var refTypeTag :- r.ReadTypeTag();
        var typeId :- r.ReadReferenceTypeId();
        var signature :- r.ReadString();
        var status :- r.ReadInt();
        return Ok(ClassPrepare(id, thread, refTypeTag, typeId, signature, ClassStatusOf(status)));
      case CLASS_UNLOAD =>
        var signature :- r.ReadString();
        return Ok(ClassUnload(id, signature));
      case FIELD_ACCESS =>
        var thread :- r.ReadObjectId();
        var location :- r.ReadLocation();
        var refTypeTag :- r.ReadTypeTag();
        var typeId :- r.ReadReferenceTypeId();
        var fieldId :- r.ReadFieldId();
        var x :- r.ReadTaggedObject();
        return Ok(FieldAccess(id, thread, location, refTypeTag, typeId, fieldId, x));
      case FIELD_MODIFICATION =>
        var thread :- r.ReadObjectId();
        var location :- r.ReadLocation();
        var refTypeTag :- r.ReadTypeTag();
        var typeId :- r.ReadReferenceTypeId();
        var fieldId :- r.ReadFieldId();
        var x :- r.ReadTaggedObject();
        var valueToBe :- r.ReadValue();
        return Ok(FieldModification(id, thread, location, refTypeTag, typeId, fieldId, x, valueToBe));
      case VM_DEATH =>
        return Ok(VMDeath(id));
      case _ =>
        return Err(ValueError);
    }
  }

  method SerializeEvent(w: JdwpWriter, e: JdwpEvent) returns (r: Outcome)
    modifies w
    ensures r.Pass? <==> EventFits(w.spec, e)
    ensures r.Pass? ==> w.buffer == old(w.buffer) + EncodeEvent(w.spec, e)
    ensures old(w.buffer) <= w.buffer
  {
    hide EncodeEventBody, BigEndian, FitsSigned, JdwpEvent.Kind, JdwpEventKind.Code;
    Regroup(w.buffer, [e.Kind().Code()], EncodeInt(e.requestId));
    w.WriteByte(e.Kind().Code());
    :- w.WriteInt(e.requestId);
    Regroup(old(w.buffer), [e.Kind().Code()] + EncodeInt(e.requestId), EncodeEventBody(w.spec, e));
    r := SerializeEventBody(w, e);
  }

  method DeserializeEvent(r: JdwpReader) returns (res: Result<JdwpEvent>)
    modifies r
    ensures Agrees(res, r.offset, ReadEvent(r.spec, r.data, old(r.offset)))
  {
    hide ReadEventBody;
    var b :- r.ReadByte();
    var kind :- EventKindOfCode(b);
    var requestId :- r.ReadInt();
    res := DeserializeEventBody(r, kind, requestId);
  }

  /** The count and the loop over the events. */
  method SerializeEvents(w: JdwpWriter, events: seq<JdwpEvent>) returns (r: Outcome)
    modifies w
    ensures r.Pass? <==> FitsSigned(4, |events|) && AllFit(EventFitter(w.spec), events)
    ensures r.Pass? ==> w.buffer == old(w.buffer) + EncodeCounted(EventEncoder(w.spec), events)
  {
    hide EncodeEvent, EventFits, BigEndian;
    :- w.WriteInt(|events|);
    ghost var head := w.buffer;
    for i := 0 to |events|
      invariant AllFit(EventFitter(w.spec), events[..i])
      invariant w.buffer == head + EncodeAll(EventEncoder(w.spec), events[..i])
    {
      Regroup(head, EncodeAll(EventEncoder(w.spec), events[..i]), EncodeEvent(w.spec, events[i]));
      :- SerializeEvent(w, events[i]);
      assert events[..i + 1] == events[..i] + [events[i]];
      EncodeAllSnoc(EventEncoder(w.spec), events[..i], events[i]);
    }
    assert events[..|events|] == events;
    Regroup(old(w.buffer), EncodeInt(|events|), EncodeAll(EventEncoder(w.spec), events));
    return Pass;
  }

  method SerializeComposite(w: JdwpWriter, c: Composite) returns (r: Outcome)
    modifies w
    ensures r.Pass? <==> CompositeFits(w.spec, c)
    ensures r.Pass? ==> w.buffer == old(w.buffer) + EncodeComposite(w.spec, c)
  {
    hide EncodeCounted, EventFits, EncodeEvent, AllFit, FitsSigned;
    Regroup(w.buffer, [c.suspendPolicy.Code()], EncodeCounted(EventEncoder(w.spec), c.events));
    w.WriteByte(c.suspendPolicy.Code());
    r := SerializeEvents(w, c.events);
  }

  method DeserializeComposite(r: JdwpReader) returns (res: Result<Composite>)
    modifies r
    ensures Agrees(res, r.offset, ReadComposite(r.spec, r.data, old(r.offset)))
  {
    hide ReadEvent;
    var b :- r.ReadByte();
    var policy :- SuspendPolicyOfCode(b);
    var numEvents :- r.ReadInt();
    ghost var start := r.offset;
    var events: seq<JdwpEvent> := [];
    var i := 0;
    while i < numEvents
      invariant 0 <= i && (i <= numEvents || i == 0)
      invariant ReadMany(EventDecoder(r.spec), i, r.data, start) == Ok((events, r.offset))
    {
      var e := DeserializeEvent(r);
      if e.Err? {
        ReadManyStuck(EventDecoder(r.spec), i, numEvents, r.data, start);
        return Err(e.error);
      }
      events := events + [e.value];
      i := i + 1;
    }
    return Ok(Composite(policy, events));
  }
}
