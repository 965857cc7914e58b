/** The pure wire codec: an encoder for each type and a decoder at an offset of a buffer. */
module Wire {
  import opened Results
  import opened Bytes
  import opened Utf8
  import opened Constants
  import opened Spec

  /** A decoder's result: the value and the offset after it, or what it raised. */
  type Read<T> = Result<(T, int)>

  // ----- decoders (io.py, JdwpReader) -----

  function ReadByte(data: bytes, off: int): Read<byte> {
    match FieldStart(data, off, 1)
    case Some(p) => Ok((data[p], off + 1))
    case None => Err(IndexError)
  }

  function ReadBoolean(data: bytes, off: int): Read<bool> {
    var (b, o) :- ReadByte(data, off);
    Ok((b != 0, o))
  }

  /** struct.unpack_from of an n-byte field. */
  function ReadField(n: nat, data: bytes, off: int): Read<bytes> {
    match FieldStart(data, off, n)
    case Some(p) => Ok((data[p..p + n], off + n))
    case None => Err(StructError)
  }

  function ReadUnsigned(n: nat, data: bytes, off: int): Read<int> {
    var (s, o) :- ReadField(n, data, off);
    Ok((Unsigned(s), o))
  }

  function ReadSigned(n: nat, data: bytes, off: int): Read<int> {
    var (s, o) :- ReadField(n, data, off);
    Ok((Signed(s), o))
  }

  function ReadInt(data: bytes, off: int): Read<int> { ReadSigned(4, data, off) }

  function ReadLong(data: bytes, off: int): Read<int> { ReadSigned(8, data, off) }

  function ReadString(data: bytes, off: int): Read<bytes> {
    var (n, o) :- ReadInt(data, off);
    var s := Slice(data, o, o + n);
    if IsUtf8(s) then Ok((s, o + n)) else Err(UnicodeError)
  }

  function ReadTypeTag(data: bytes, off: int): Read<JdwpTypeTag> {
    var (b, o) :- ReadByte(data, off);
    var t :- TypeTagOfCode(b);
    Ok((t, o))
  }

  function ReadTag(data: bytes, off: int): Read<JdwpTag> {
    var (b, o) :- ReadByte(data, off);
    var t :- TagOfCode(b);
    Ok((t, o))
  }

  function ReadLocation(spec: IdSizesSpec, data: bytes, off: int): Read<Location> {
    var (t, o1) :- ReadTypeTag(data, off);
    var (c, o2) :- ReadUnsigned(spec.referenceTypeId, data, o1);
    var (m, o3) :- ReadUnsigned(spec.methodId, data, o2);
    var (i, o4) :- ReadLong(data, o3);
    Ok((Location(t, c, m, i), o4))
  }

  function ReadTaggedObject(spec: IdSizesSpec, data: bytes, off: int): Read<TaggedObjectId> {
    var (t, o1) :- ReadTag(data, off);
    var (x, o2) :- ReadUnsigned(spec.objectId, data, o1);
    Ok((TaggedObjectId(t, x), o2))
  }

  function ReadUntaggedValue(spec: IdSizesSpec, tag: JdwpTag, data: bytes, off: int): Read<Payload> {
    if tag.IsObject() then AsNumber(ReadUnsigned(spec.objectId, data, off))
    else match tag
      case BYTE => AsNumber(ReadSigned(1, data, off))
      case CHAR => AsNumber(ReadUnsigned(2, data, off))
      case FLOAT => AsPattern(ReadUnsigned(4, data, off))
      case DOUBLE => AsPattern(ReadUnsigned(8, data, off))
      case INT => AsNumber(ReadInt(data, off))
      case LONG => AsNumber(ReadLong(data, off))
      case SHORT => AsNumber(ReadSigned(2, data, off))
      case BOOLEAN => AsFlag(ReadBoolean(data, off))
      case _ => Ok((Nothing, off))
  }

  function AsNumber(r: Read<int>): Read<Payload> {
    var (n, o) :- r;
    Ok((Number(n), o))
  }

  function AsPattern(r: Read<int>): Read<Payload> {
    var (n, o) :- r;
    Ok((Pattern(n), o))
  }

  function AsFlag(r: Read<bool>): Read<Payload> {
    var (b, o) :- r;
    Ok((Flag(b), o))
  }

  function ReadValue(spec: IdSizesSpec, data: bytes, off: int): Read<JdwpValue> {
    var (t, o1) :- ReadTag(data, off);
    var (v, o2) :- ReadUntaggedValue(spec, t, data, o1);
    Ok((JdwpValue(t, v), o2))
  }

  // ----- encoders (io.py, JdwpWriter) -----

  function EncodeBoolean(b: bool): bytes { [if b then 1 else 0] }

  function EncodeInt(v: int): bytes { BigEndian(4, v) }

  function EncodeLong(v: int): bytes { BigEndian(8, v) }

  function EncodeString(s: bytes): bytes { EncodeInt(|s|) + s }

  function EncodeLocation(spec: IdSizesSpec, l: Location): bytes {
    [l.typeTag.Code()] + BigEndian(spec.referenceTypeId, l.classId)
    + BigEndian(spec.methodId, l.methodId) + EncodeLong(l.index)
  }

  function EncodeTaggedObject(spec: IdSizesSpec, t: TaggedObjectId): bytes {
    [t.tag.Code()] + BigEndian(spec.objectId, t.objectId)
  }

  /** The raw field of a value under a tag; meaningful when PayloadFits. */
  function EncodeUntaggedValue(spec: IdSizesSpec, tag: JdwpTag, v: Payload): bytes {
    var n := match v case Number(n) => n case Pattern(p) => p case _ => 0;
    if tag.IsObject() then BigEndian(spec.objectId, n)
    else match tag
      case BYTE => BigEndian(1, n)
      case CHAR => BigEndian(2, n)
      case FLOAT => BigEndian(4, n)
      case DOUBLE => BigEndian(8, n)
      case INT => EncodeInt(n)
      case LONG => EncodeLong(n)
      case SHORT => BigEndian(2, n)
      case BOOLEAN => EncodeBoolean(v.Flag? && v.b)
      case _ => []
  }

  function EncodeValue(spec: IdSizesSpec, v: JdwpValue): bytes {
    [v.tag.Code()] + EncodeUntaggedValue(spec, v.tag, v.value)
  }

  // ----- what the encoders accept without raising -----

  predicate StringFits(s: bytes) {
    IsUtf8(s) && FitsSigned(4, |s|)
  }

  predicate LocationFits(spec: IdSizesSpec, l: Location) {
    && FitsUnsigned(spec.referenceTypeId, l.classId)
    && FitsUnsigned(spec.methodId, l.methodId)
    && FitsSigned(8, l.index)
  }

  predicate TaggedObjectFits(spec: IdSizesSpec, t: TaggedObjectId) {
    FitsUnsigned(spec.objectId, t.objectId)
  }

  predicate PayloadFits(spec: IdSizesSpec, tag: JdwpTag, v: Payload) {
    if tag.IsObject() then v.Number? && FitsUnsigned(spec.objectId, v.n)
    else match tag
      case BYTE => v.Number? && FitsSigned(1, v.n)
      case CHAR => v.Number? && FitsUnsigned(2, v.n)
      case FLOAT => v.Pattern? && FitsUnsigned(4, v.bits)
      case DOUBLE => v.Pattern? && FitsUnsigned(8, v.bits)
      case INT => v.Number? && FitsSigned(4, v.n)
      case LONG => v.Number? && FitsSigned(8, v.n)
      case SHORT => v.Number? && FitsSigned(2, v.n)
      case BOOLEAN => v.Flag?
      case _ => v.Nothing?
  }

  predicate ValueFits(spec: IdSizesSpec, v: JdwpValue) {
    PayloadFits(spec, v.tag, v.value)
  }

  // ----- every primitive codec is self-delimiting -----

  /** At a place where x's encoding stands, the decoder returns x and stops right behind it. */
  lemma UnsignedDelimits(n: nat, v: int, data: bytes, off: int)
    requires FitsUnsigned(n, v) && At(data, off, BigEndian(n, v))
    ensures ReadUnsigned(n, data, off) == Ok((v, off + n))
  {
    UnsignedOfBigEndian(n, v);
  }

  lemma SignedDelimits(n: nat, v: int, data: bytes, off: int)
    requires FitsSigned(n, v) && At(data, off, BigEndian(n, v))
    ensures ReadSigned(n, data, off) == Ok((v, off + n))
  {
    SignedOfBigEndian(n, v);
  }

  lemma ByteDelimits(b: byte, data: bytes, off: int)
    requires At(data, off, [b])
    ensures ReadByte(data, off) == Ok((b, off + 1))
  {
    assert data[off..off + 1][0] == b;
  }

  /** The same three facts for every value and position in one buffer. */
  lemma FieldsDelimit(data: bytes)
    ensures forall n: nat, v: int, off: int {:trigger At(data, off, BigEndian(n, v))} ::
              At(data, off, BigEndian(n, v)) ==>
                && (FitsUnsigned(n, v) ==> ReadUnsigned(n, data, off) == Ok((v, off + n)))
                && (FitsSigned(n, v) ==> ReadSigned(n, data, off) == Ok((v, off + n)))
    ensures forall b: byte, off: int {:trigger At(data, off, [b])} ::
              At(data, off, [b]) ==> ReadByte(data, off) == Ok((b, off + 1))
    ensures forall off: int, a: bytes, b: bytes {:trigger At(data, off, a + b)} ::
              At(data, off, a + b) ==> At(data, off, a) && At(data, off + |a|, b)
  {
    AtSplits(data);
    forall n: nat, v: int, off: int | At(data, off, BigEndian(n, v))
      ensures FitsUnsigned(n, v) ==> ReadUnsigned(n, data, off) == Ok((v, off + n))
      ensures FitsSigned(n, v) ==> ReadSigned(n, data, off) == Ok((v, off + n))
    {
      if FitsUnsigned(n, v) { UnsignedDelimits(n, v, data, off); }
      if FitsSigned(n, v) { SignedDelimits(n, v, data, off); }
    }
    forall b: byte, off: int | At(data, off, [b])
      ensures ReadByte(data, off) == Ok((b, off + 1))
    {
      ByteDelimits(b, data, off);
    }
  }

  lemma StringDelimits(s: bytes, data: bytes, off: int)
    requires StringFits(s) && At(data, off, EncodeString(s))
    ensures ReadString(data, off) == Ok((s, off + |EncodeString(s)|))
  {
    AtConcat(data, off, EncodeInt(|s|), s);
    SignedDelimits(4, |s|, data, off);
  }

  lemma LocationDelimits(spec: IdSizesSpec, l: Location, data: bytes, off: int)
    requires LocationFits(spec, l) && At(data, off, EncodeLocation(spec, l))
    ensures ReadLocation(spec, data, off) == Ok((l, off + |EncodeLocation(spec, l)|))
  {
    FieldsDelimit(data);
  }

  lemma TaggedObjectDelimits(spec: IdSizesSpec, t: TaggedObjectId, data: bytes, off: int)
    requires TaggedObjectFits(spec, t) && At(data, off, EncodeTaggedObject(spec, t))
    ensures ReadTaggedObject(spec, data, off) == Ok((t, off + |EncodeTaggedObject(spec, t)|))
  {
    FieldsDelimit(data);
  }

  lemma PayloadDelimits(spec: IdSizesSpec, tag: JdwpTag, v: Payload, data: bytes, off: int)
    requires PayloadFits(spec, tag, v) && At(data, off, EncodeUntaggedValue(spec, tag, v))
    ensures ReadUntaggedValue(spec, tag, data, off)
            == Ok((v, off + |EncodeUntaggedValue(spec, tag, v)|))
  {
    FieldsDelimit(data);
  }

  lemma ValueDelimits(spec: IdSizesSpec, v: JdwpValue, data: bytes, off: int)
    requires ValueFits(spec, v) && At(data, off, EncodeValue(spec, v))
    ensures ReadValue(spec, data, off) == Ok((v, off + |EncodeValue(spec, v)|))
  {
    hide ReadUntaggedValue, EncodeUntaggedValue, PayloadFits, ReadByte, At;
    AtConcat(data, off, [v.tag.Code()], EncodeUntaggedValue(spec, v.tag, v.value));
    ByteDelimits(v.tag.Code(), data, off);
    PayloadDelimits(spec, v.tag, v.value, data, off + 1);
  }
}
