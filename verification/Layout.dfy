/**
  * The fields of every modelled structure in their wire order, with the protocol's numbers, as tables; each
  * encoder writes what its table says.
  */
module Layout {
  import opened Results
  import opened Bytes
  import opened Constants
  import opened Spec
  import opened Wire
  import opened Lists
  import opened Packet
  import opened Event
  import opened EventRequest
  import opened ArrayReference
  import opened Vm
  import opened Commands
  import opened Cursor
  import SimpleConnection
  import ProxySession

  // ----- rows of a table, written one after the other -----

  lemma Row1(spec: IdSizesSpec, a: Item)
    ensures EncodeItems(spec, [a]) == EncodeItem(spec, a)
  {
    assert [a][..0] == [];
    assert EncodeAll(ItemEncoder(spec), [a]) == [] + EncodeItem(spec, a);
  }

  lemma RowSnoc(spec: IdSizesSpec, items: seq<Item>, last: Item)
    ensures EncodeItems(spec, items + [last]) == EncodeItems(spec, items) + EncodeItem(spec, last)
  {
    EncodeAllSnoc(ItemEncoder(spec), items, last);
  }

  lemma Row2(spec: IdSizesSpec, a: Item, b: Item)
    ensures EncodeItems(spec, [a, b]) == EncodeItem(spec, a) + EncodeItem(spec, b)
  {
    hide EncodeItem;
    Row1(spec, a);
    RowSnoc(spec, [a], b);
    assert [a, b] == [a] + [b];
  }

  lemma Row3(spec: IdSizesSpec, a: Item, b: Item, c: Item)
    ensures EncodeItems(spec, [a, b, c]) == EncodeItem(spec, a) + EncodeItem(spec, b) + EncodeItem(spec, c)
  {
    hide EncodeItem, EncodeItems;
    Row2(spec, a, b);
    RowSnoc(spec, [a, b], c);
    assert [a, b, c] == [a, b] + [c];
  }

  lemma Row4(spec: IdSizesSpec, a: Item, b: Item, c: Item, d: Item)
    ensures EncodeItems(spec, [a, b, c, d])
            == EncodeItem(spec, a) + EncodeItem(spec, b) + EncodeItem(spec, c) + EncodeItem(spec, d)
  {
    hide EncodeItem, EncodeItems;
    Row3(spec, a, b, c);
    RowSnoc(spec, [a, b, c], d);
    assert [a, b, c, d] == [a, b, c] + [d];
  }

  lemma Row5(spec: IdSizesSpec, a: Item, b: Item, c: Item, d: Item, e: Item)
    ensures EncodeItems(spec, [a, b, c, d, e])
            == EncodeItem(spec, a) + EncodeItem(spec, b) + EncodeItem(spec, c) + EncodeItem(spec, d)
               + EncodeItem(spec, e)
  {
    hide EncodeItem, EncodeItems;
    Row4(spec, a, b, c, d);
    RowSnoc(spec, [a, b, c, d], e);
    assert [a, b, c, d, e] == [a, b, c, d] + [e];
  }

  lemma Row6(spec: IdSizesSpec, a: Item, b: Item, c: Item, d: Item, e: Item, f: Item)
    ensures EncodeItems(spec, [a, b, c, d, e, f])
            == EncodeItem(spec, a) + EncodeItem(spec, b) + EncodeItem(spec, c) + EncodeItem(spec, d)
               + EncodeItem(spec, e) + EncodeItem(spec, f)
  {
    hide EncodeItem, EncodeItems;
    Row5(spec, a, b, c, d, e);
    RowSnoc(spec, [a, b, c, d, e], f);
    assert [a, b, c, d, e, f] == [a, b, c, d, e] + [f];
  }

  lemma Row7(spec: IdSizesSpec, a: Item, b: Item, c: Item, d: Item, e: Item, f: Item, g: Item)
    ensures EncodeItems(spec, [a, b, c, d, e, f, g])
            == EncodeItem(spec, a) + EncodeItem(spec, b) + EncodeItem(spec, c) + EncodeItem(spec, d)
               + EncodeItem(spec, e) + EncodeItem(spec, f) + EncodeItem(spec, g)
  {
    hide EncodeItem, EncodeItems;
    Row6(spec, a, b, c, d, e, f);
    RowSnoc(spec, [a, b, c, d, e, f], g);
    assert [a, b, c, d, e, f, g] == [a, b, c, d, e, f] + [g];
  }

  // ----- values -----

  /** A raw value is one big-endian number of the width of its tag; a boolean is 1 or 0, void is nothing. */
  lemma PayloadLayout(spec: IdSizesSpec, tag: JdwpTag, v: Payload)
    requires PayloadFits(spec, tag, v)
    ensures EncodeUntaggedValue(spec, tag, v) ==
              match v
              case Number(n) => BigEndian(PayloadWidth(spec, tag), n)
              case Pattern(bits) => BigEndian(PayloadWidth(spec, tag), bits)
              case Flag(b) => [if b then 1 else 0]
              case Nothing => []
  {
    hide BigEndian, FitsSigned, FitsUnsigned;
  }

  lemma StructureLayouts(spec: IdSizesSpec, l: Location, t: TaggedObjectId, v: JdwpValue, s: bytes)
    ensures EncodeLocation(spec, l) == EncodeItems(spec,
              [ByteItem(l.typeTag.Code()), ReferenceTypeIdItem(l.classId), MethodIdItem(l.methodId), LongItem(l.index)])
    ensures EncodeTaggedObject(spec, t) == EncodeItems(spec, [ByteItem(t.tag.Code()), ObjectIdItem(t.objectId)])
    ensures EncodeValue(spec, v) == EncodeItems(spec, [ByteItem(v.tag.Code()), UntaggedItem(v.tag, v.value)])
    ensures EncodeString(s) == BigEndian(4, |s|) + s
  {
    hide EncodeItems, BigEndian, EncodeUntaggedValue;
    Row4(spec, ByteItem(l.typeTag.Code()), ReferenceTypeIdItem(l.classId), MethodIdItem(l.methodId), LongItem(l.index));
    Row2(spec, ByteItem(t.tag.Code()), ObjectIdItem(t.objectId));
    Row2(spec, ByteItem(v.tag.Code()), UntaggedItem(v.tag, v.value));
  }

  // ----- events: "Event Command Set (64)", Composite (100) -----

  /** The event kind and the fields after the request id. */
  function EventTable(e: JdwpEvent): (int, seq<Item>) {
    match e
    case VMStart(_, t) => (90, [ObjectIdItem(t)])
    case SingleStep(_, t, l) => (1, [ObjectIdItem(t), LocationItem(l)])
    case Breakpoint(_, t, l) => (2, [ObjectIdItem(t), LocationItem(l)])
    case MethodEntry(_, t, l) => (40, [ObjectIdItem(t), LocationItem(l)])
    case MethodExit(_, t, l) => (41, [ObjectIdItem(t), LocationItem(l)])
    case MethodExitWithReturnValue(_, t, l, v) => (42, [ObjectIdItem(t), LocationItem(l), ValueItem(v)])
    case MonitorContendedEnter(_, t, x, l) => (43, [ObjectIdItem(t), TaggedObjectItem(x), LocationItem(l)])
    case MonitorContendedEntered(_, t, x, l) => (44, [ObjectIdItem(t), TaggedObjectItem(x), LocationItem(l)])
    case MonitorWait(_, t, x, l, timeout) =>
      (45, [ObjectIdItem(t), TaggedObjectItem(x), LocationItem(l), LongItem(timeout)])
    case MonitorWaited(_, t, x, l, timedOut) =>
      (46, [ObjectIdItem(t), TaggedObjectItem(x), LocationItem(l), BooleanItem(timedOut)])
    case Exception(_, t, l, x, c) => (4, [ObjectIdItem(t), LocationItem(l), TaggedObjectItem(x), LocationItem(c)])
    case ThreadStart(_, t) => (6, [ObjectIdItem(t)])
    case ThreadDeath(_, t) => (7, [ObjectIdItem(t)])
    case ClassPrepare(_, t, r, i, s, status) =>
      (8, [ObjectIdItem(t), ByteItem(r.Code()), ReferenceTypeIdItem(i), StringItem(s), IntItem(status)])
    case ClassUnload(_, s) => (9, [StringItem(s)])
    case FieldAccess(_, t, l, r, i, f, x) =>
      (20, [ObjectIdItem(t), LocationItem(l), ByteItem(r.Code()), ReferenceTypeIdItem(i), FieldIdItem(f),
            TaggedObjectItem(x)])
    case FieldModification(_, t, l, r, i, f, x, v) =>
      (21, [ObjectIdItem(t), LocationItem(l), ByteItem(r.Code()), ReferenceTypeIdItem(i), FieldIdItem(f),
            TaggedObjectItem(x), ValueItem(v)])
    case VMDeath(_) => (99, [])
  }

  lemma ShortEventLayout(spec: IdSizesSpec, e: JdwpEvent)
    requires |EventTable(e).1| <= 3
    ensures EncodeEventBody(spec, e) == EncodeItems(spec, EventTable(e).1)
  {
    hide EncodeItems, BigEndian, EncodeLocation, EncodeTaggedObject, EncodeValue, EncodeString;
    var items := EventTable(e).1;
    match |items| {
      case 0 => NoRows(spec);
      case 1 => Row1(spec, items[0]);
      case 2 => Row2(spec, items[0], items[1]);
      case _ => Row3(spec, items[0], items[1], items[2]);
    }
  }

  lemma NoRows(spec: IdSizesSpec)
    ensures EncodeItems(spec, []) == []
  {
  }

  lemma LongEventLayout(spec: IdSizesSpec, e: JdwpEvent)
    requires |EventTable(e).1| >= 6
    ensures EncodeEventBody(spec, e) == EncodeItems(spec, EventTable(e).1)
  {
    hide EncodeItems, BigEndian, EncodeLocation, EncodeTaggedObject, EncodeValue;
    var items := EventTable(e).1;
    if e.FieldAccess? {
      Row6(spec, items[0], items[1], items[2], items[3], items[4], items[5]);
    } else {
      Row7(spec, items[0], items[1], items[2], items[3], items[4], items[5], items[6]);
    }
  }

  lemma MiddleEventLayout(spec: IdSizesSpec, e: JdwpEvent)
    requires 4 <= |EventTable(e).1| <= 5
    ensures EncodeEventBody(spec, e) == EncodeItems(spec, EventTable(e).1)
  {
    hide EncodeItems, BigEndian, EncodeLocation, EncodeTaggedObject, EncodeValue, EncodeString;
    var items := EventTable(e).1;
    if |items| == 4 {
      Row4(spec, items[0], items[1], items[2], items[3]);
    } else {
      Row5(spec, items[0], items[1], items[2], items[3], items[4]);
    }
  }

  lemma EventBodyLayout(spec: IdSizesSpec, e: JdwpEvent)
    ensures EncodeEventBody(spec, e) == EncodeItems(spec, EventTable(e).1)
  {
    hide EncodeItems, EventTable, EncodeEventBody;
    if |EventTable(e).1| <= 3 {
      ShortEventLayout(spec, e);
    } else if |EventTable(e).1| <= 5 {
      MiddleEventLayout(spec, e);
    } else {
      LongEventLayout(spec, e);
    }
  }

  lemma EventLayout(spec: IdSizesSpec, e: JdwpEvent)
    ensures EncodeEvent(spec, e)
            == EncodeItems(spec, [ByteItem(EventTable(e).0), IntItem(e.requestId)]) + EncodeItems(spec, EventTable(e).1)
  {
    hide EncodeItems, EncodeEventBody, BigEndian;
    EventBodyLayout(spec, e);
    Row2(spec, ByteItem(EventTable(e).0), IntItem(e.requestId));
  }

  lemma EncodeOne<T>(enc: T -> bytes, x: T)
    ensures EncodeAll(enc, [x]) == enc(x)
  {
    assert [x][..0] == [];
    assert EncodeAll(enc, [x]) == [] + enc(x);
  }

  /** Encodings one after the other, the first element first. */
  lemma InOrder<T>(enc: T -> bytes, xs: seq<T>)
    requires xs != []
    ensures EncodeAll(enc, []) == []
    ensures EncodeAll(enc, xs) == enc(xs[0]) + EncodeAll(enc, xs[1..])
  {
    EncodeOne(enc, xs[0]);
    EncodeAllConcat(enc, [xs[0]], xs[1..]);
    assert [xs[0]] + xs[1..] == xs;
    assert EncodeAll(enc, []) == [];
    hide EncodeAll;
  }

  lemma {:induction false} EncodeAllConcat<T>(enc: T -> bytes, a: seq<T>, b: seq<T>)
    ensures EncodeAll(enc, a + b) == EncodeAll(enc, a) + EncodeAll(enc, b)
  {
    if b == [] {
      assert a + b == a;
    } else {
      var k := |b| - 1;
      assert (a + b)[..|a + b| - 1] == a + b[..k];
      EncodeAllConcat(enc, a, b[..k]);
    }
  }

  // ----- the commands around the lists -----

  /** Policy, number of events, and the events in order. */
  lemma CompositeLayout(spec: IdSizesSpec, c: Composite)
    ensures EncodeComposite(spec, c)
            == EncodeItems(spec, [ByteItem(c.suspendPolicy.Code()), IntItem(|c.events|)])
               + EncodeAll(EventEncoder(spec), c.events)
  {
    hide EncodeItems, BigEndian, EncodeAll;
    Row2(spec, ByteItem(c.suspendPolicy.Code()), IntItem(|c.events|));
  }

  /** The kind and the fields of a modifier: "EventRequest Command Set (15)", Set (1). */
  function ModifierTable(m: EventModifier): (int, seq<Item>) {
    match m
    case Count(n) => (1, [IntItem(n)])
    case Conditional(n) => (2, [IntItem(n)])
    case ThreadOnly(t) => (3, [ObjectIdItem(t)])
    case ClassOnly(c) => (4, [ReferenceTypeIdItem(c)])
    case ClassMatch(s) => (5, [StringItem(s)])
    case ClassExclude(s) => (6, [StringItem(s)])
    case LocationOnly(l) => (7, [LocationItem(l)])
    case ExceptionOnly(x, caught, uncaught) =>
      (8, [ReferenceTypeIdItem(x), BooleanItem(caught), BooleanItem(uncaught)])
    case FieldOnly(declaring, f) => (9, [ReferenceTypeIdItem(declaring), FieldIdItem(f)])
    case StepOnly(t, size, depth) => (10, [ObjectIdItem(t), IntItem(size), IntItem(depth)])
    case InstanceOnly(i) => (11, [ObjectIdItem(i)])
    case PlatformThreadsOnly => (14, [])
  }

  lemma ModifierLayout(spec: IdSizesSpec, m: EventModifier)
    ensures EncodeModifier(spec, m) == EncodeItem(spec, ByteItem(ModifierTable(m).0))
                                       + EncodeItems(spec, ModifierTable(m).1)
  {
    hide EncodeItems, BigEndian, EncodeLocation, EncodeString;
    var items := ModifierTable(m).1;
    match |items| {
      case 0 => NoRows(spec);
      case 1 => Row1(spec, items[0]);
      case 2 => Row2(spec, items[0], items[1]);
      case _ => Row3(spec, items[0], items[1], items[2]);
    }
  }

  /** Event kind, policy, number of modifiers, and the modifiers in order. */
  lemma SetLayout(spec: IdSizesSpec, c: SetRequest)
    ensures EncodeSet(spec, c)
            == EncodeItems(spec, [ByteItem(c.eventKind.Code()), ByteItem(c.suspendPolicy.Code()), IntItem(|c.modifiers|)])
               + EncodeAll(ModifierEncoder(spec), c.modifiers)
  {
    hide EncodeItems, BigEndian, EncodeAll;
    Row3(spec, ByteItem(c.eventKind.Code()), ByteItem(c.suspendPolicy.Code()), IntItem(|c.modifiers|));
  }

  /** Tag, number of elements, and the elements in order, each with its own tag only under an object tag. */
  lemma RegionLayout(spec: IdSizesSpec, r: JdwpArrayRegion, v: JdwpValue)
    ensures EncodeRegion(spec, r)
            == EncodeItems(spec, [ByteItem(r.tag.Code()), IntItem(|r.values|)])
               + EncodeAll(ElementEncoder(spec, r.tag), r.values)
    ensures ElementEncoder(spec, r.tag)(v) ==
              if r.tag.IsObject() then EncodeItem(spec, ValueItem(v)) else EncodeItem(spec, UntaggedItem(v.tag, v.value))
  {
    hide EncodeItems, BigEndian, EncodeAll, EncodeUntaggedValue;
    Row2(spec, ByteItem(r.tag.Code()), IntItem(|r.values|));
  }

  /** Array, first index, number of values, and the raw values in order under the command's tag. */
  lemma SetValuesLayout(spec: IdSizesSpec, c: SetValuesRequest, v: JdwpValue)
    ensures EncodeSetValues(spec, c)
            == EncodeItems(spec, [ObjectIdItem(c.arrayObject), IntItem(c.firstIndex), IntItem(|c.values|)])
               + EncodeAll(SlotEncoder(spec, c.tag), c.values)
    ensures SlotEncoder(spec, c.tag)(v) == EncodeItem(spec, UntaggedItem(c.tag, v.value))
  {
    hide EncodeItems, BigEndian, EncodeAll, EncodeUntaggedValue;
    Row3(spec, ObjectIdItem(c.arrayObject), IntItem(c.firstIndex), IntItem(|c.values|));
  }

  /** Field, method, object, reference type, frame. */
  lemma IdSizesLayout(spec: IdSizesSpec, r: IdSizesResponse)
    ensures EncodeIdSizes(r) == EncodeItems(spec, [IntItem(r.fieldId), IntItem(r.methodId), IntItem(r.objectId),
                                                   IntItem(r.referenceTypeId), IntItem(r.frameId)])
  {
    hide EncodeItems, BigEndian;
    Row5(spec, IntItem(r.fieldId), IntItem(r.methodId), IntItem(r.objectId), IntItem(r.referenceTypeId),
         IntItem(r.frameId));
  }

  /** Each class: its id, the number of its bytes, and the bytes. */
  lemma RedefineLayout(spec: IdSizesSpec, r: RedefineClassesRequest)
    ensures EncodeRedefine(spec, r)
            == EncodeItems(spec, [ReferenceTypeIdItem(r.refType), IntItem(|r.classBytes|)]) + r.classBytes
  {
    hide EncodeItems, BigEndian;
    Row2(spec, ReferenceTypeIdItem(r.refType), IntItem(|r.classBytes|));
    BytesAreThemselves(r.classBytes);
  }

  lemma {:induction false} BytesAreThemselves(s: bytes)
    ensures EncodeAll(ByteEncoder(), s) == s
  {
    if s != [] {
      BytesAreThemselves(s[..|s| - 1]);
      assert s == s[..|s| - 1] + [s[|s| - 1]];
    }
  }

  // ----- command codes and packet headers -----

  /** Command set, command, and the payload as far as it is no list. */
  lemma CommandLayouts(spec: IdSizesSpec, c: JdwpCommand)
    ensures match c
            case IdSizes => c.Code() == (1, 7) && EncodeCommand(spec, c) == []
            case RedefineClasses(classes) =>
              c.Code() == (1, 18) && EncodeCommand(spec, c)
                == EncodeItem(spec, IntItem(|classes|)) + EncodeAll(RedefineEncoder(spec), classes)
            case ArrayLength(a) => c.Code() == (13, 1) && EncodeCommand(spec, c) == EncodeItems(spec, [ObjectIdItem(a)])
            case ArrayGetValues(a, first, length) =>
              c.Code() == (13, 2) && EncodeCommand(spec, c)
                == EncodeItems(spec, [ObjectIdItem(a), IntItem(first), IntItem(length)])
            case ArraySetValues(v) => c.Code() == (13, 3) && EncodeCommand(spec, c) == EncodeSetValues(spec, v)
            case EventSet(r) => c.Code() == (15, 1) && EncodeCommand(spec, c) == EncodeSet(spec, r)
            case EventClear(kind, id) =>
              c.Code() == (15, 2) && EncodeCommand(spec, c) == EncodeItems(spec, [ByteItem(kind.Code()), IntItem(id)])
            case EventClearAllBreakpoints => c.Code() == (15, 3) && EncodeCommand(spec, c) == []
            case EventComposite(x) => c.Code() == (64, 100) && EncodeCommand(spec, c) == EncodeComposite(spec, x)
  {
    hide EncodeItems, BigEndian, EncodeAll, EncodeSetValues, EncodeSet, EncodeComposite;
    match c {
      case ArrayLength(a) => Row1(spec, ObjectIdItem(a));
      case ArrayGetValues(a, first, length) => Row3(spec, ObjectIdItem(a), IntItem(first), IntItem(length));
      case EventClear(kind, id) => Row2(spec, ByteItem(kind.Code()), IntItem(id));
      case _ =>
    }
  }

  /** The client and the proxy take just the IDSizes command for a question for the sizes. */
  lemma OnlyIdSizesAsks(spec: IdSizesSpec, id: nat, c: JdwpCommand)
    ensures SimpleConnection.IsIdSizes(c.Code().0 as int, c.Code().1 as int) <==> c.IdSizes?
    ensures ProxySession.IsIdSizesCommand(CommandToPacket(spec, id, c)) <==> c.IdSizes?
  {
    hide EncodeCommand;
  }

  /** Length with header, id, flags, then command set and command, or the error code: "JDWP Packets". */
  lemma HeaderLayout(p: JdwpPacket)
    ensures EncodePacket(p) ==
              BigEndian(4, |p.data| + 11) + BigEndian(4, p.id) + BigEndian(1, p.flags)
              + (match p
                 case CommandPacket(_, _, _, set_, command) => BigEndian(1, set_) + BigEndian(1, command)
                 case ReplyPacket(_, _, _, error) => BigEndian(2, error))
              + p.data
  {
    hide BigEndian;
  }

  /** A packet is a reply exactly when the top bit of its flags byte is set. */
  lemma ReplyBit(flags: byte)
    ensures ReplyFlag(flags) <==> flags >= 0x80
  {
  }
}
