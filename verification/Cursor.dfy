/** Whole buffers: any sequence of typed items through the writer and back through the reader (io.py). */
module Cursor {
  import opened Results
  import opened Bytes
  import opened Constants
  import opened Spec
  import opened Wire
  import opened Lists
  import opened Io

  /** The read operations of the cursor. */
  datatype Field =
    | ByteField
    | BooleanField
    | IntField
    | LongField
    | StringField
    | ObjectIdField
    | ReferenceTypeIdField
    | FieldIdField
    | MethodIdField
    | FrameIdField
    | LocationField
    | TaggedObjectField
    | UntaggedField(tag: JdwpTag)
    | ValueField

  /** The write operations of the writer with their arguments. */
  datatype Item =
    | ByteItem(n: int)
    | BooleanItem(b: bool)
    | IntItem(n: int)
    | LongItem(n: int)
    | StringItem(s: bytes)
    | ObjectIdItem(n: int)
    | ReferenceTypeIdItem(n: int)
    | FieldIdItem(n: int)
    | MethodIdItem(n: int)
    | FrameIdItem(n: int)
    | LocationItem(l: Location)
    | TaggedObjectItem(t: TaggedObjectId)
    | UntaggedItem(tag: JdwpTag, v: Payload)
    | ValueItem(value: JdwpValue)
  {
    /** The read operation that undoes this write. */
    function Field(): Field {
      match this
      case ByteItem(_) => ByteField
      case BooleanItem(_) => BooleanField
      case IntItem(_) => IntField
      case LongItem(_) => LongField
      case StringItem(_) => StringField
      case ObjectIdItem(_) => ObjectIdField
      case ReferenceTypeIdItem(_) => ReferenceTypeIdField
      case FieldIdItem(_) => FieldIdField
      case MethodIdItem(_) => MethodIdField
      case FrameIdItem(_) => FrameIdField
      case LocationItem(_) => LocationField
      case TaggedObjectItem(_) => TaggedObjectField
      case UntaggedItem(tag, _) => UntaggedField(tag)
      case ValueItem(_) => ValueField
    }

    /** The write does not raise. A byte is masked, never rejected. */
    predicate Fits(spec: IdSizesSpec) {
      match this
      case ByteItem(_) => true
      case BooleanItem(_) => true
      case IntItem(n) => FitsSigned(4, n)
      case LongItem(n) => FitsSigned(8, n)
      case StringItem(s) => StringFits(s)
      case ObjectIdItem(n) => FitsUnsigned(spec.objectId, n)
      case ReferenceTypeIdItem(n) => FitsUnsigned(spec.referenceTypeId, n)
      case FieldIdItem(n) => FitsUnsigned(spec.fieldId, n)
      case MethodIdItem(n) => FitsUnsigned(spec.methodId, n)
      case FrameIdItem(n) => FitsUnsigned(spec.frameId, n)
      case LocationItem(l) => LocationFits(spec, l)
      case TaggedObjectItem(t) => TaggedObjectFits(spec, t)
      case UntaggedItem(tag, v) => PayloadFits(spec, tag, v)
      case ValueItem(v) => ValueFits(spec, v)
    }

    /** A byte outside 0..255 loses its high bits; everything else that is accepted survives. */
    predicate Survives() {
      ByteItem? ==> 0 <= n < 256
    }

    /** What stands on the wire for this item. */
    function Kept(): Item {
      if ByteItem? then ByteItem(n % 256) else this
    }
  }

  function EncodeItem(spec: IdSizesSpec, item: Item): bytes {
    match item
    case ByteItem(n) => [n % 256]
    case BooleanItem(b) => EncodeBoolean(b)
    case IntItem(n) => EncodeInt(n)
    case LongItem(n) => EncodeLong(n)
    case StringItem(s) => EncodeString(s)
    case ObjectIdItem(n) => BigEndian(spec.objectId, n)
    case ReferenceTypeIdItem(n) => BigEndian(spec.referenceTypeId, n)
    case FieldIdItem(n) => BigEndian(spec.fieldId, n)
    case MethodIdItem(n) => BigEndian(spec.methodId, n)
    case FrameIdItem(n) => BigEndian(spec.frameId, n)
    case LocationItem(l) => EncodeLocation(spec, l)
    case TaggedObjectItem(t) => EncodeTaggedObject(spec, t)
    case UntaggedItem(tag, v) => EncodeUntaggedValue(spec, tag, v)
    case ValueItem(v) => EncodeValue(spec, v)
  }

  function AsItem<T>(r: Read<T>, wrap: T -> Item): Read<Item> {
    var (x, o) :- r;
    Ok((wrap(x), o))
  }

  function ReadItem(spec: IdSizesSpec, field: Field, data: bytes, off: int): Read<Item> {
    match field
    case ByteField => AsItem(Wire.ReadByte(data, off), (b: byte) => ByteItem(b))
    case BooleanField => AsItem(Wire.ReadBoolean(data, off), (b: bool) => BooleanItem(b))
    case IntField => AsItem(Wire.ReadInt(data, off), (n: int) => IntItem(n))
    case LongField => AsItem(Wire.ReadLong(data, off), (n: int) => LongItem(n))
    case StringField => AsItem(Wire.ReadString(data, off), (s: bytes) => StringItem(s))
    case ObjectIdField => AsItem(ReadUnsigned(spec.objectId, data, off), (n: int) => ObjectIdItem(n))
    case ReferenceTypeIdField =>
      AsItem(ReadUnsigned(spec.referenceTypeId, data, off), (n: int) => ReferenceTypeIdItem(n))
    case FieldIdField => AsItem(ReadUnsigned(spec.fieldId, data, off), (n: int) => FieldIdItem(n))
    case MethodIdField => AsItem(ReadUnsigned(spec.methodId, data, off), (n: int) => MethodIdItem(n))
    case FrameIdField => AsItem(ReadUnsigned(spec.frameId, data, off), (n: int) => FrameIdItem(n))
    case LocationField => AsItem(Wire.ReadLocation(spec, data, off), (l: Location) => LocationItem(l))
    case TaggedObjectField =>
      AsItem(Wire.ReadTaggedObject(spec, data, off), (t: TaggedObjectId) => TaggedObjectItem(t))
    case UntaggedField(tag) =>
      AsItem(Wire.ReadUntaggedValue(spec, tag, data, off), (v: Payload) => UntaggedItem(tag, v))
    case ValueField => AsItem(Wire.ReadValue(spec, data, off), (v: JdwpValue) => ValueItem(v))
  }

  /** Bytes a raw value takes under a tag, from the Data type table of the JDWP specification. */
  function PayloadWidth(spec: IdSizesSpec, tag: JdwpTag): nat {
    match tag
    case VOID => 0
    case BYTE => 1
    case BOOLEAN => 1
    case CHAR => 2
    case SHORT => 2
    case INT => 4
    case FLOAT => 4
    case LONG => 8
    case DOUBLE => 8
    case _ => spec.objectId
  }

  function ItemWidth(spec: IdSizesSpec, item: Item): nat {
    match item
    case ByteItem(_) => 1
    case BooleanItem(_) => 1
    case IntItem(_) => 4
    case LongItem(_) => 8
    case StringItem(s) => 4 + |s|
    case ObjectIdItem(_) => spec.objectId
    case ReferenceTypeIdItem(_) => spec.referenceTypeId
    case FieldIdItem(_) => spec.fieldId
    case MethodIdItem(_) => spec.methodId
    case FrameIdItem(_) => spec.frameId
    case LocationItem(_) => 1 + spec.referenceTypeId + spec.methodId + 8
    case TaggedObjectItem(_) => 1 + spec.objectId
    case UntaggedItem(tag, _) => PayloadWidth(spec, tag)
    case ValueItem(v) => 1 + PayloadWidth(spec, v.tag)
  }

  function ItemEncoder(spec: IdSizesSpec): Item -> bytes {
    (i: Item) => EncodeItem(spec, i)
  }

  function ItemFitter(spec: IdSizesSpec): Item -> bool {
    (i: Item) => i.Fits(spec)
  }

  function EncodeItems(spec: IdSizesSpec, items: seq<Item>): bytes {
    EncodeAll(ItemEncoder(spec), items)
  }

  function Fields(items: seq<Item>): seq<Field> {
    seq(|items|, i requires 0 <= i < |items| => items[i].Field())
  }

  function KeptItems(items: seq<Item>): seq<Item> {
    seq(|items|, i requires 0 <= i < |items| => items[i].Kept())
  }

  function TotalWidth(spec: IdSizesSpec, items: seq<Item>): nat {
    if items == [] then 0
    else TotalWidth(spec, items[..|items| - 1]) + ItemWidth(spec, items[|items| - 1])
  }

  /** One read per field; the first that raises ends it. */
  function ReadItems(spec: IdSizesSpec, fields: seq<Field>, data: bytes, off: int): (r: Read<seq<Item>>)
    ensures r.Ok? ==> |r.value.0| == |fields|
  {
    if fields == [] then Ok(([], off))
    else
      var (xs, o1) :- ReadItems(spec, fields[..|fields| - 1], data, off);
      var (x, o2) :- ReadItem(spec, fields[|fields| - 1], data, o1);
      Ok((xs + [x], o2))
  }

  lemma PayloadWidthIsExact(spec: IdSizesSpec, tag: JdwpTag, v: Payload)
    ensures |EncodeUntaggedValue(spec, tag, v)| == PayloadWidth(spec, tag)
  {
  }

  lemma ItemWidthIsExact(spec: IdSizesSpec, item: Item)
    ensures |EncodeItem(spec, item)| == ItemWidth(spec, item)
  {
    hide EncodeUntaggedValue;
    match item {
      case UntaggedItem(tag, v) => PayloadWidthIsExact(spec, tag, v);
      case ValueItem(v) => PayloadWidthIsExact(spec, v.tag, v.value);
      case _ =>
    }
  }

  lemma StructureDelimits(spec: IdSizesSpec, item: Item, data: bytes, off: int)
    requires item.LocationItem? || item.TaggedObjectItem? || item.UntaggedItem? || item.ValueItem? || item.StringItem?
    requires item.Fits(spec) && At(data, off, EncodeItem(spec, item))
    ensures ReadItem(spec, item.Field(), data, off) == Ok((item, off + |EncodeItem(spec, item)|))
  {
    hide At, BigEndian, Wire.ReadString, Wire.ReadLocation, Wire.ReadTaggedObject, Wire.ReadUntaggedValue,
         Wire.ReadValue, EncodeString, EncodeLocation, EncodeTaggedObject, EncodeUntaggedValue, EncodeValue,
         StringFits, LocationFits, TaggedObjectFits, PayloadFits, ValueFits;
    match item {
      case StringItem(s) => StringDelimits(s, data, off);
      case LocationItem(l) => LocationDelimits(spec, l, data, off);
      case TaggedObjectItem(t) => TaggedObjectDelimits(spec, t, data, off);
      case UntaggedItem(tag, v) => PayloadDelimits(spec, tag, v, data, off);
      case ValueItem(v) => ValueDelimits(spec, v, data, off);
    }
  }

  /** Where an accepted item stands, its own read operation returns what was kept of it and moves by its width. */
  lemma ItemDelimits(spec: IdSizesSpec, item: Item, data: bytes, off: int)
    requires item.Fits(spec) && At(data, off, EncodeItem(spec, item))
    ensures ReadItem(spec, item.Field(), data, off) == Ok((item.Kept(), off + ItemWidth(spec, item)))
  {
    hide At, BigEndian, ReadUnsigned, ReadSigned, Wire.ReadByte, Wire.ReadString, Wire.ReadLocation,
         Wire.ReadTaggedObject, Wire.ReadUntaggedValue, Wire.ReadValue, EncodeString, EncodeLocation,
         EncodeTaggedObject, EncodeUntaggedValue, EncodeValue, FitsUnsigned, FitsSigned, ItemWidth;
    ItemWidthIsExact(spec, item);
    match item {
      case ByteItem(n) => ByteDelimits(n % 256, data, off);
      case BooleanItem(b) => ByteDelimits(if b then 1 else 0, data, off);
      case IntItem(n) => SignedDelimits(4, n, data, off);
      case LongItem(n) => SignedDelimits(8, n, data, off);
      case ObjectIdItem(n) => UnsignedDelimits(spec.objectId, n, data, off);
      case ReferenceTypeIdItem(n) => UnsignedDelimits(spec.referenceTypeId, n, data, off);
      case FieldIdItem(n) => UnsignedDelimits(spec.fieldId, n, data, off);
      case MethodIdItem(n) => UnsignedDelimits(spec.methodId, n, data, off);
      case FrameIdItem(n) => UnsignedDelimits(spec.frameId, n, data, off);
      case _ => StructureDelimits(spec, item, data, off);
    }
  }

  /**
    * Reading the fields of any accepted items, wherever their encodings stand, never raises, returns what
    * was kept of each, and moves the cursor by exactly the sum of their widths.
    */
  lemma {:induction false} ItemsDelimit(spec: IdSizesSpec, items: seq<Item>, data: bytes, off: int)
    requires AllFit(ItemFitter(spec), items) && At(data, off, EncodeItems(spec, items))
    ensures ReadItems(spec, Fields(items), data, off)
            == Ok((KeptItems(items), off + TotalWidth(spec, items)))
    ensures |EncodeItems(spec, items)| == TotalWidth(spec, items)
  {
    hide At, EncodeItem, ReadItem, ItemWidth;
    if items == [] {
      assert Fields(items) == [] && KeptItems(items) == [];
    } else {
      var init, last := items[..|items| - 1], items[|items| - 1];
      AtConcat(data, off, EncodeItems(spec, init), EncodeItem(spec, last));
      ItemsDelimit(spec, init, data, off);
      ItemDelimits(spec, last, data, off + TotalWidth(spec, init));
      ItemWidthIsExact(spec, last);
      assert Fields(items)[..|items| - 1] == Fields(init) && Fields(items)[|items| - 1] == last.Field();
      assert KeptItems(items) == KeptItems(init) + [last.Kept()];
    }
  }

  /** The items come back as they were written if and only if no byte item was out of range. */
  lemma ItemsRoundTrip(spec: IdSizesSpec, items: seq<Item>, tail: bytes)
    requires AllFit(ItemFitter(spec), items)
    ensures ReadItems(spec, Fields(items), EncodeItems(spec, items) + tail, 0)
            == Ok((KeptItems(items), |EncodeItems(spec, items)|))
    ensures KeptItems(items) == items <==> forall i :: 0 <= i < |items| ==> items[i].Survives()
  {
    hide EncodeItem, ReadItem, ItemWidth, ItemFitter;
    ItemsDelimit(spec, items, EncodeItems(spec, items) + tail, 0);
    assert forall i :: 0 <= i < |items| ==> KeptItems(items)[i] == items[i].Kept();
    assert forall i :: 0 <= i < |items| ==> (items[i].Kept() == items[i] <==> items[i].Survives());
  }

  /** A read that raises is where a longer list of reads stops too. */
  lemma {:induction false} ReadItemsStuck(spec: IdSizesSpec, fields: seq<Field>, n: nat, data: bytes, off: int)
    requires n < |fields|
    requires var r := ReadItems(spec, fields[..n], data, off);
             r.Ok? && ReadItem(spec, fields[n], data, r.value.1).Err?
    ensures ReadItems(spec, fields, data, off)
            == Err(ReadItem(spec, fields[n], data, ReadItems(spec, fields[..n], data, off).value.1).error)
    decreases |fields|
  {
    hide ReadItem;
    if n < |fields| - 1 {
      assert fields[..|fields| - 1][..n] == fields[..n];
      ReadItemsStuck(spec, fields[..|fields| - 1], n, data, off);
    }
  }

  // ----- the same through the classes -----

  method WriteItem(w: JdwpWriter, item: Item) returns (r: Outcome)
    modifies w
    ensures r.Pass? <==> item.Fits(w.spec)
    ensures r.Pass? ==> w.buffer == old(w.buffer) + EncodeItem(w.spec, item)
    ensures old(w.buffer) <= w.buffer
  {
    r := Pass;
    match item {
      case ByteItem(n) => w.WriteByte(n);
      case BooleanItem(b) => w.WriteBoolean(b);
      case IntItem(n) => r := w.WriteInt(n);
      case LongItem(n) => r := w.WriteLong(n);
      case StringItem(s) => r := w.WriteString(s);
      case ObjectIdItem(n) => r := w.WriteObjectId(n);
      case ReferenceTypeIdItem(n) => r := w.WriteReferenceTypeId(n);
      case FieldIdItem(n) => r := w.WriteFieldId(n);
      case MethodIdItem(n) => r := w.WriteMethodId(n);
      case FrameIdItem(n) => r := w.WriteFrameId(n);
      case LocationItem(l) => r := w.WriteLocation(l);
      case TaggedObjectItem(t) => r := w.WriteTaggedObject(t);
      case UntaggedItem(tag, v) => r := w.WriteUntaggedValue(tag, v);
      case ValueItem(v) => r := w.WriteValue(v);
    }
  }

  method WriteItems(w: JdwpWriter, items: seq<Item>) returns (r: Outcome)
    modifies w
    ensures r.Pass? <==> AllFit(ItemFitter(w.spec), items)
    ensures r.Pass? ==> w.buffer == old(w.buffer) + EncodeItems(w.spec, items)
  {
    hide EncodeItem;
    for i := 0 to |items|
      invariant AllFit(ItemFitter(w.spec), items[..i])
      invariant w.buffer == old(w.buffer) + EncodeItems(w.spec, items[..i])
    {
      Regroup(old(w.buffer), EncodeItems(w.spec, items[..i]), EncodeItem(w.spec, items[i]));
      EncodeAllSnoc(ItemEncoder(w.spec), items[..i], items[i]);
      assert items[..i + 1] == items[..i] + [items[i]];
      assert ItemFitter(w.spec)(items[i]) == items[i].Fits(w.spec);
      :- WriteItem(w, items[i]);
    }
    assert items[..|items|] == items;
    return Pass;
  }

  method ReadScalar(r: JdwpReader, field: Field) returns (res: Result<Item>)
    requires !field.LocationField? && !field.TaggedObjectField? && !field.UntaggedField? && !field.ValueField?
    modifies r
    ensures Agrees(res, r.offset, ReadItem(r.spec, field, r.data, old(r.offset)))
  {
    hide Wire.ReadByte, Wire.ReadBoolean, Wire.ReadInt, Wire.ReadLong, Wire.ReadString, ReadUnsigned;
    match field {
      case ByteField =>
        var b :- r.ReadByte();
        return Ok(ByteItem(b));
      case BooleanField =>
        var b :- r.ReadBoolean();
        return Ok(BooleanItem(b));
      case IntField =>
        var n :- r.ReadInt();
        return Ok(IntItem(n));
      case LongField =>
        var n :- r.ReadLong();
        return Ok(LongItem(n));
      case StringField =>
        var s :- r.ReadString();
        return Ok(StringItem(s));
      case ObjectIdField =>
        var n :- r.ReadObjectId();
        return Ok(ObjectIdItem(n));
      case ReferenceTypeIdField =>
        var n :- r.ReadReferenceTypeId();
        return Ok(ReferenceTypeIdItem(n));
      case FieldIdField =>
        var n :- r.ReadFieldId();
        return Ok(FieldIdItem(n));
      case MethodIdField =>
        var n :- r.ReadMethodId();
        return Ok(MethodIdItem(n));
      case FrameIdField =>
        var n :- r.ReadFrameId();
        return Ok(FrameIdItem(n));
    }
  }

  method ReadField(r: JdwpReader, field: Field) returns (res: Result<Item>)
    modifies r
    ensures Agrees(res, r.offset, ReadItem(r.spec, field, r.data, old(r.offset)))
  {
    hide Wire.ReadLocation, Wire.ReadTaggedObject, Wire.ReadUntaggedValue, Wire.ReadValue;
    match field {
      case LocationField =>
        var l :- r.ReadLocation();
        return Ok(LocationItem(l));
      case TaggedObjectField =>
        var t :- r.ReadTaggedObject();
        return Ok(TaggedObjectItem(t));
      case UntaggedField(tag) =>
        var v :- r.ReadUntaggedValue(tag);
        return Ok(UntaggedItem(tag, v));
      case ValueField =>
        var v :- r.ReadValue();
        return Ok(ValueItem(v));
      case _ =>
        res := ReadScalar(r, field);
    }
  }

  method ReadFields(r: JdwpReader, fields: seq<Field>) returns (res: Result<seq<Item>>)
    modifies r
    ensures Agrees(res, r.offset, ReadItems(r.spec, fields, r.data, old(r.offset)))
  {
    hide ReadItem;
    var items: seq<Item> := [];
    for i := 0 to |fields|
      invariant ReadItems(r.spec, fields[..i], r.data, old(r.offset)) == Ok((items, r.offset))
    {
      ghost var before := r.offset;
      assert fields[..i + 1][..i] == fields[..i];
      if ReadItem(r.spec, fields[i], r.data, before).Err? {
        ReadItemsStuck(r.spec, fields, i, r.data, old(r.offset));
      }
      var item :- ReadField(r, fields[i]);
      items := items + [item];
    }
    assert fields[..|fields|] == fields;
    return Ok(items);
  }

  /** A writer's bytes handed to a fresh reader: everything is read back and nothing is left over. */
  method WriteThenRead(spec: IdSizesSpec, items: seq<Item>) returns (r: Result<seq<Item>>, remaining: int)
    ensures r.Ok? <==> AllFit(ItemFitter(spec), items)
    ensures r.Ok? ==> remaining == 0 && r.value == KeptItems(items)
  {
    hide ReadItem, EncodeItem;
    var w := new JdwpWriter(spec);
    var written := WriteItems(w, items);
    if written.Fail? {
      return Err(written.error), 0;
    }
    var reader := new JdwpReader(w.buffer, spec);
    assert [] + EncodeItems(spec, items) == w.buffer == EncodeItems(spec, items) + [];
    ItemsRoundTrip(spec, items, []);
    r := ReadFields(reader, Fields(items));
    remaining := reader.Remaining();
  }
}
