/** The read cursor and the append-only writer (io.py), proved against the pure wire codec. */
module Io {
  import opened Results
  import opened Bytes
  import opened Utf8
  import opened Constants
  import opened Spec
  import opened Wire

  /** What a cursor call returned, against the pure decoder started at the same offset. */
  ghost predicate Agrees<T>(r: Result<T>, offset: int, pure_: Read<T>) {
    match r
    case Ok(v) => pure_ == Ok((v, offset))
    case Err(e) => pure_ == Err(e)
  }

  class JdwpReader {
    const data: bytes
    const spec: IdSizesSpec
    var offset: int

    constructor (data: bytes, spec: IdSizesSpec)
      ensures this.data == data && this.spec == spec && offset == 0
    {
      this.data := data;
      this.spec := spec;
      this.offset := 0;
    }

    function Remaining(): (n: int)
      reads this
    {
      |data| - offset
    }

    method ReadByte() returns (r: Result<byte>)
      modifies this
      ensures Agrees(r, offset, Wire.ReadByte(data, old(offset)))
    {
      match FieldStart(data, offset, 1) {
        case Some(p) =>
          offset := offset + 1;
          return Ok(data[p]);
        case None =>
          return Err(IndexError);
      }
    }

    method ReadBoolean() returns (r: Result<bool>)
      modifies this
      ensures Agrees(r, offset, Wire.ReadBoolean(data, old(offset)))
    {
      var b :- ReadByte();
      return Ok(b != 0);
    }

    /** struct.unpack_from followed by the advance of the cursor. */
    method UnpackUnsigned(size: nat) returns (r: Result<int>)
      modifies this
      ensures Agrees(r, offset, ReadUnsigned(size, data, old(offset)))
    {
      match FieldStart(data, offset, size) {
        case Some(p) =>
          offset := offset + size;
          return Ok(Unsigned(data[p..p + size]));
        case None =>
          return Err(StructError);
      }
    }

    method UnpackSigned(size: nat) returns (r: Result<int>)
      modifies this
      ensures Agrees(r, offset, ReadSigned(size, data, old(offset)))
    {
      match FieldStart(data, offset, size) {
        case Some(p) =>
          offset := offset + size;
          return Ok(Signed(data[p..p + size]));
        case None =>
          return Err(StructError);
      }
    }

    method ReadInt() returns (r: Result<int>)
      modifies this
      ensures Agrees(r, offset, Wire.ReadInt(data, old(offset)))
    {
      r := UnpackSigned(4);
    }

    method ReadLong() returns (r: Result<int>)
      modifies this
      ensures Agrees(r, offset, Wire.ReadLong(data, old(offset)))
    {
      r := UnpackSigned(8);
    }

    method ReadString() returns (r: Result<bytes>)
      modifies this
      ensures Agrees(r, offset, Wire.ReadString(data, old(offset)))
    {
      var length :- ReadInt();
      var val := Slice(data, offset, offset + length);
      if !IsUtf8(val) {
        return Err(UnicodeError);
      }
      offset := offset + length;
      return Ok(val);
    }

    method ReadObjectId() returns (r: Result<int>)
      modifies this
      ensures Agrees(r, offset, ReadUnsigned(spec.objectId, data, old(offset)))
    {
      r := UnpackUnsigned(spec.objectId);
    }

    method ReadReferenceTypeId() returns (r: Result<int>)
      modifies this
      ensures Agrees(r, offset, ReadUnsigned(spec.referenceTypeId, data, old(offset)))
    {
      r := UnpackUnsigned(spec.referenceTypeId);
    }

    method ReadFieldId() returns (r: Result<int>)
      modifies this
      ensures Agrees(r, offset, ReadUnsigned(spec.fieldId, data, old(offset)))
    {
      r := UnpackUnsigned(spec.fieldId);
    }

    method ReadMethodId() returns (r: Result<int>)
      modifies this
      ensures Agrees(r, offset, ReadUnsigned(spec.methodId, data, old(offset)))
    {
      r := UnpackUnsigned(spec.methodId);
    }

    method ReadFrameId() returns (r: Result<int>)
      modifies this
      ensures Agrees(r, offset, ReadUnsigned(spec.frameId, data, old(offset)))
    {
      r := UnpackUnsigned(spec.frameId);
    }

    method ReadTypeTag() returns (r: Result<JdwpTypeTag>)
      modifies this
      ensures Agrees(r, offset, Wire.ReadTypeTag(data, old(offset)))
    {
      var b :- ReadByte();
      r := TypeTagOfCode(b);
    }

    method ReadTag() returns (r: Result<JdwpTag>)
      modifies this
      ensures Agrees(r, offset, Wire.ReadTag(data, old(offset)))
    {
      var b :- ReadByte();
      r := TagOfCode(b);
    }

    method ReadLocation() returns (r: Result<Location>)
      modifies this
      ensures Agrees(r, offset, Wire.ReadLocation(spec, data, old(offset)))
    {
      var typeTag :- ReadTypeTag();
      var classId :- ReadReferenceTypeId();
      var methodId :- ReadMethodId();
      var index :- ReadLong();
      return Ok(Location(typeTag, classId, methodId, index));
    }

    method ReadTaggedObject() returns (r: Result<TaggedObjectId>)
      modifies this
      ensures Agrees(r, offset, Wire.ReadTaggedObject(spec, data, old(offset)))
    {
      var tag :- ReadTag();
      var objectId :- ReadObjectId();
      return Ok(TaggedObjectId(tag, objectId));
    }

    method ReadUntaggedValue(tag: JdwpTag) returns (r: Result<Payload>)
      modifies this
      ensures Agrees(r, offset, Wire.ReadUntaggedValue(spec, tag, data, old(offset)))
    {
      if tag.IsObject() {
        var n :- ReadObjectId();
        return Ok(Number(n));
      }
      match tag {
        case BYTE =>
          var n :- UnpackSigned(1);
          return Ok(Number(n));
        case CHAR =>
          var n :- UnpackUnsigned(2);
          return Ok(Number(n));
        case FLOAT =>
          var p :- UnpackUnsigned(4);
          return Ok(Pattern(p));
        case DOUBLE =>
          var p :- UnpackUnsigned(8);
          return Ok(Pattern(p));
        case INT =>
          var n :- ReadInt();
          return Ok(Number(n));
        case LONG =>
          var n :- ReadLong();
          return Ok(Number(n));
        case SHORT =>
          var n :- UnpackSigned(2);
          return Ok(Number(n));
        case BOOLEAN =>
          var b :- ReadBoolean();
          return Ok(Flag(b));
        case _ =>
          return Ok(Nothing);
      }
    }

    method ReadValue() returns (r: Result<JdwpValue>)
      modifies this
      ensures Agrees(r, offset, Wire.ReadValue(spec, data, old(offset)))
    {
      var tag :- ReadTag();
      var value :- ReadUntaggedValue(tag);
      return Ok(JdwpValue(tag, value));
    }
  }

  class JdwpWriter {
    const spec: IdSizesSpec
    var buffer: bytes

    constructor (spec: IdSizesSpec)
      ensures this.spec == spec && buffer == []
    {
      this.spec := spec;
      this.buffer := [];
    }

    /** Appends the low eight bits; never raises. */
    method WriteByte(val: int)
      modifies this
      ensures buffer == old(buffer) + [val % 256]
    {
      buffer := buffer + [val % 256];
    }

    method WriteBoolean(val: bool)
      modifies this
      ensures buffer == old(buffer) + EncodeBoolean(val)
    {
      buffer := buffer + [if val then 1 else 0];
    }

    /** struct.pack of an unsigned field. */
    method PackUnsigned(size: nat, val: int) returns (r: Outcome)
      modifies this
      ensures r.Pass? <==> FitsUnsigned(size, val)
      ensures buffer == old(buffer) + if r.Pass? then BigEndian(size, val) else []
    {
      if !FitsUnsigned(size, val) {
        return Fail(StructError);
      }
      buffer := buffer + BigEndian(size, val);
      return Pass;
    }

    method PackSigned(size: nat, val: int) returns (r: Outcome)
      modifies this
      ensures r.Pass? <==> FitsSigned(size, val)
      ensures buffer == old(buffer) + if r.Pass? then BigEndian(size, val) else []
    {
      if !FitsSigned(size, val) {
        return Fail(StructError);
      }
      buffer := buffer + BigEndian(size, val);
      return Pass;
    }

    method WriteInt(val: int) returns (r: Outcome)
      modifies this
      ensures r.Pass? <==> FitsSigned(4, val)
      ensures buffer == old(buffer) + if r.Pass? then EncodeInt(val) else []
    {
      r := PackSigned(4, val);
    }

    method WriteLong(val: int) returns (r: Outcome)
      modifies this
      ensures r.Pass? <==> FitsSigned(8, val)
      ensures buffer == old(buffer) + if r.Pass? then EncodeLong(val) else []
    {
      r := PackSigned(8, val);
    }

    /** The argument is the encoded form of a str; what is not UTF-8 encodes no str. */
    method WriteString(encoded: bytes) returns (r: Outcome)
      modifies this
      ensures r.Pass? <==> StringFits(encoded)
      ensures buffer == old(buffer) + if r.Pass? then EncodeString(encoded) else []
    {
      if !IsUtf8(encoded) {
        return Fail(UnicodeError);
      }
      :- WriteInt(|encoded|);
      buffer := buffer + encoded;
      return Pass;
    }

    method WriteObjectId(val: int) returns (r: Outcome)
      modifies this
      ensures r.Pass? <==> FitsUnsigned(spec.objectId, val)
      ensures buffer == old(buffer) + if r.Pass? then BigEndian(spec.objectId, val) else []
    {
      r := PackUnsigned(spec.objectId, val);
    }

    method WriteReferenceTypeId(val: int) returns (r: Outcome)
      modifies this
      ensures r.Pass? <==> FitsUnsigned(spec.referenceTypeId, val)
      ensures buffer == old(buffer) + if r.Pass? then BigEndian(spec.referenceTypeId, val) else []
    {
      r := PackUnsigned(spec.referenceTypeId, val);
    }

    method WriteFieldId(val: int) returns (r: Outcome)
      modifies this
      ensures r.Pass? <==> FitsUnsigned(spec.fieldId, val)
      ensures buffer == old(buffer) + if r.Pass? then BigEndian(spec.fieldId, val) else []
    {
      r := PackUnsigned(spec.fieldId, val);
    }

    method WriteMethodId(val: int) returns (r: Outcome)
      modifies this
      ensures r.Pass? <==> FitsUnsigned(spec.methodId, val)
      ensures buffer == old(buffer) + if r.Pass? then BigEndian(spec.methodId, val) else []
    {
      r := PackUnsigned(spec.methodId, val);
    }

    method WriteFrameId(val: int) returns (r: Outcome)
      modifies this
      ensures r.Pass? <==> FitsUnsigned(spec.frameId, val)
      ensures buffer == old(buffer) + if r.Pass? then BigEndian(spec.frameId, val) else []
    {
      r := PackUnsigned(spec.frameId, val);
    }

    /** On a raise part of the structure may already stand in the buffer. */
    method WriteLocation(val: Location) returns (r: Outcome)
      modifies this
      ensures r.Pass? <==> LocationFits(spec, val)
      ensures r.Pass? ==> buffer == old(buffer) + EncodeLocation(spec, val)
      ensures old(buffer) <= buffer
    {
      WriteByte(val.typeTag.Code());
      :- WriteReferenceTypeId(val.classId);
      :- WriteMethodId(val.methodId);
      r := WriteLong(val.index);
    }

    method WriteTaggedObject(val: TaggedObjectId) returns (r: Outcome)
      modifies this
      ensures r.Pass? <==> TaggedObjectFits(spec, val)
      ensures r.Pass? ==> buffer == old(buffer) + EncodeTaggedObject(spec, val)
      ensures old(buffer) <= buffer
    {
      WriteByte(val.tag.Code());
      r := WriteObjectId(val.objectId);
    }

    /** A payload of another kind than the tag asks for is rejected, as struct.pack does. */
    method WriteUntaggedValue(tag: JdwpTag, val: Payload) returns (r: Outcome)
      modifies this
      ensures r.Pass? <==> PayloadFits(spec, tag, val)
      ensures r.Pass? ==> buffer == old(buffer) + EncodeUntaggedValue(spec, tag, val)
      ensures old(buffer) <= buffer
    {
      if tag.IsObject() && val.Number? {
        r := WriteObjectId(val.n);
        return;
      }
      match (tag, val) {
        case (BYTE, Number(n)) => r := PackSigned(1, n);
        case (CHAR, Number(n)) => r := PackUnsigned(2, n);
        case (FLOAT, Pattern(p)) => r := PackUnsigned(4, p);
        case (DOUBLE, Pattern(p)) => r := PackUnsigned(8, p);
        case (INT, Number(n)) => r := WriteInt(n);
        case (LONG, Number(n)) => r := WriteLong(n);
        case (SHORT, Number(n)) => r := PackSigned(2, n);
        case (VOID, Nothing) => r := Pass;
        case (BOOLEAN, Flag(b)) =>
          WriteBoolean(b);
          r := Pass;
        case _ => r := Fail(StructError);
      }
    }

    method WriteValue(val: JdwpValue) returns (r: Outcome)
      modifies this
      ensures r.Pass? <==> ValueFits(spec, val)
      ensures r.Pass? ==> buffer == old(buffer) + EncodeValue(spec, val)
      ensures old(buffer) <= buffer
    {
      WriteByte(val.tag.Code());
      r := WriteUntaggedValue(val.tag, val.value);
    }
  }
}
