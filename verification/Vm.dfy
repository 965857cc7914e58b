/** VirtualMachine.IDSizes, which bootstraps the spec, and RedefineClasses (commands/vm.py). */
module Vm {
  import opened Results
  import opened Bytes
  import opened Spec
  import opened Wire
  import opened Lists
  import opened Io

  datatype IdSizesResponse = IdSizesResponse(
    fieldId: int,
    methodId: int,
    objectId: int,
    referenceTypeId: int,
    frameId: int)

  function ReadIdSizes(data: bytes, off: int): Read<IdSizesResponse> {
    var (f, o1) :- ReadInt(data, off);
    var (m, o2) :- ReadInt(data, o1);
    var (x, o3) :- ReadInt(data, o2);
    var (t, o4) :- ReadInt(data, o3);
    var (s, o5) :- ReadInt(data, o4);
    Ok((IdSizesResponse(f, m, x, t, s), o5))
  }

  function EncodeIdSizes(r: IdSizesResponse): bytes {
    EncodeInt(r.fieldId) + EncodeInt(r.methodId) + EncodeInt(r.objectId) + EncodeInt(r.referenceTypeId)
    + EncodeInt(r.frameId)
  }

  predicate IdSizesFits(r: IdSizesResponse) {
    && FitsSigned(4, r.fieldId) && FitsSigned(4, r.methodId) && FitsSigned(4, r.objectId)
    && FitsSigned(4, r.referenceTypeId) && FitsSigned(4, r.frameId)
  }

  function SpecFromResponse(r: IdSizesResponse): (spec: Result<IdSizesSpec>)
    ensures spec.Ok? <==> {r.fieldId, r.methodId, r.objectId, r.referenceTypeId, r.frameId} <= {4, 8}
    ensures spec.Ok? ==> ResponseOfSpec(spec.value) == r
  {
    CreateSpec(r.fieldId, r.methodId, r.objectId, r.referenceTypeId, r.frameId)
  }

  /** The spec that an IDSizes reply with this payload establishes, or what its handling raises. */
  function SpecFromReply(data: bytes): Result<IdSizesSpec> {
    var (r, _) :- ReadIdSizes(data, 0);
    SpecFromResponse(r)
  }

  function ResponseOfSpec(spec: IdSizesSpec): (r: IdSizesResponse)
    ensures r.fieldId == spec.fieldId && r.methodId == spec.methodId && r.objectId == spec.objectId
    ensures r.referenceTypeId == spec.referenceTypeId && r.frameId == spec.frameId
  {
    IdSizesResponse(spec.fieldId, spec.methodId, spec.objectId, spec.referenceTypeId, spec.frameId)
  }

  lemma IdSizesDelimits(r: IdSizesResponse, data: bytes, off: int)
    requires IdSizesFits(r) && At(data, off, EncodeIdSizes(r))
    ensures ReadIdSizes(data, off) == Ok((r, off + 20))
  {
    hide At, BigEndian, ReadSigned;
    FieldsDelimit(data);
  }

  /** A VM that announces a supported spec is understood to have that spec, whatever bytes follow. */
  lemma SpecRoundTrip(spec: IdSizesSpec, tail: bytes)
    ensures SpecFromReply(EncodeIdSizes(ResponseOfSpec(spec)) + tail) == Ok(spec)
  {
    var r := ResponseOfSpec(spec);
    SizesFit(spec.fieldId);
    SizesFit(spec.methodId);
    SizesFit(spec.objectId);
    SizesFit(spec.referenceTypeId);
    SizesFit(spec.frameId);
    hide BigEndian, FitsSigned;
    IdSizesDelimits(r, EncodeIdSizes(r) + tail, 0);
  }

  lemma SizesFit(w: Width)
    ensures FitsSigned(4, w)
  {
  }

  // ----- RedefineClasses: a counted list of counted byte blocks -----

  datatype RedefineClassesRequest = RedefineClassesRequest(refType: int, classBytes: bytes)

  function ByteEncoder(): byte -> bytes {
    (b: byte) => [b]
  }

  function ByteDecoder(): Decoder<byte> {
    (data: bytes, off: int) => Wire.ReadByte(data, off)
  }

  function EncodeRedefine(spec: IdSizesSpec, r: RedefineClassesRequest): bytes {
    BigEndian(spec.referenceTypeId, r.refType) + EncodeCounted(ByteEncoder(), r.classBytes)
  }

  function ReadRedefine(spec: IdSizesSpec, data: bytes, off: int): Read<RedefineClassesRequest> {
    var (t, o1) :- ReadUnsigned(spec.referenceTypeId, data, off);
    var (block, o2) :- ReadCounted(ByteDecoder(), data, o1);
    Ok((RedefineClassesRequest(t, block), o2))
  }

  predicate RedefineFits(spec: IdSizesSpec, r: RedefineClassesRequest) {
    FitsUnsigned(spec.referenceTypeId, r.refType) && FitsSigned(4, |r.classBytes|)
  }

  function RedefineEncoder(spec: IdSizesSpec): RedefineClassesRequest -> bytes {
    (r: RedefineClassesRequest) => EncodeRedefine(spec, r)
  }

  function RedefineDecoder(spec: IdSizesSpec): Decoder<RedefineClassesRequest> {
    (data: bytes, off: int) => ReadRedefine(spec, data, off)
  }

  function RedefineFitter(spec: IdSizesSpec): RedefineClassesRequest -> bool {
    (r: RedefineClassesRequest) => RedefineFits(spec, r)
  }

  function EncodeRedefineClasses(spec: IdSizesSpec, classes: seq<RedefineClassesRequest>): bytes {
    EncodeCounted(RedefineEncoder(spec), classes)
  }

  function ReadRedefineClasses(spec: IdSizesSpec, data: bytes, off: int): Read<seq<RedefineClassesRequest>> {
    ReadCounted(RedefineDecoder(spec), data, off)
  }

  ghost predicate RedefineClassesFits(spec: IdSizesSpec, classes: seq<RedefineClassesRequest>) {
    FitsSigned(4, |classes|) && AllFit(RedefineFitter(spec), classes)
  }

  lemma BytesSelfDelimiting()
    ensures SelfDelimiting(ByteEncoder(), ByteDecoder(), (b: byte) => true)
  {
    forall b: byte, data: bytes, off: int | At(data, off, ByteEncoder()(b))
      ensures ByteDecoder()(data, off) == Ok((b, off + |ByteEncoder()(b)|))
    {
      ByteDelimits(b, data, off);
    }
  }

  lemma RedefineDelimits(spec: IdSizesSpec, r: RedefineClassesRequest, data: bytes, off: int)
    requires RedefineFits(spec, r) && At(data, off, EncodeRedefine(spec, r))
    ensures ReadRedefine(spec, data, off) == Ok((r, off + |EncodeRedefine(spec, r)|))
  {
    hide BigEndian, ReadCounted, EncodeCounted, SelfDelimiting;
    AtConcat(data, off, BigEndian(spec.referenceTypeId, r.refType), EncodeCounted(ByteEncoder(), r.classBytes));
    UnsignedDelimits(spec.referenceTypeId, r.refType, data, off);
    BytesSelfDelimiting();
    CountedDelimits(ByteEncoder(), ByteDecoder(), (b: byte) => true, r.classBytes, data, off + spec.referenceTypeId);
  }

  /** Nested counted lists: every class block comes back with its own bytes. */
  lemma RedefineClassesDelimits(spec: IdSizesSpec, classes: seq<RedefineClassesRequest>, data: bytes, off: int)
    requires RedefineClassesFits(spec, classes) && At(data, off, EncodeRedefineClasses(spec, classes))
    ensures ReadRedefineClasses(spec, data, off) == Ok((classes, off + |EncodeRedefineClasses(spec, classes)|))
  {
    hide EncodeRedefine, ReadRedefine, RedefineFits, At, ReadCounted, EncodeCounted;
    forall r: RedefineClassesRequest, data: bytes, off: int | RedefineFits(spec, r) && At(data, off, RedefineEncoder(spec)(r))
      ensures RedefineDecoder(spec)(data, off) == Ok((r, off + |RedefineEncoder(spec)(r)|))
    {
      RedefineDelimits(spec, r, data, off);
    }
    CountedDelimits(RedefineEncoder(spec), RedefineDecoder(spec), RedefineFitter(spec), classes, data, off);
  }

  // ----- the stateful serializers -----

  method SerializeIdSizes(w: JdwpWriter, r: IdSizesResponse) returns (res: Outcome)
    modifies w
    ensures res.Pass? <==> IdSizesFits(r)
    ensures res.Pass? ==> w.buffer == old(w.buffer) + EncodeIdSizes(r)
  {
    hide BigEndian, FitsSigned;
    AppendedTo(w.buffer);
    :- w.WriteInt(r.fieldId);
    :- w.WriteInt(r.methodId);
    :- w.WriteInt(r.objectId);
    :- w.WriteInt(r.referenceTypeId);
    res := w.WriteInt(r.frameId);
  }

  method DeserializeIdSizes(r: JdwpReader) returns (res: Result<IdSizesResponse>)
    modifies r
    ensures Agrees(res, r.offset, ReadIdSizes(r.data, old(r.offset)))
  {
    var fieldId :- r.ReadInt();
    var methodId :- r.ReadInt();
    var objectId :- r.ReadInt();
    var referenceTypeId :- r.ReadInt();
    var frameId :- r.ReadInt();
    return Ok(IdSizesResponse(fieldId, methodId, objectId, referenceTypeId, frameId));
  }

  /** The length and the loop that writes the class file byte by byte. */
  method SerializeBlock(w: JdwpWriter, block: bytes) returns (res: Outcome)
    modifies w
    ensures res.Pass? <==> FitsSigned(4, |block|)
    ensures res.Pass? ==> w.buffer == old(w.buffer) + EncodeCounted(ByteEncoder(), block)
  {
    hide BigEndian, FitsSigned;
    :- w.WriteInt(|block|);
    ghost var head := w.buffer;
    for i := 0 to |block|
      invariant w.buffer == head + EncodeAll(ByteEncoder(), block[..i])
    {
      w.WriteByte(block[i]);
      assert block[..i + 1] == block[..i] + [block[i]];
      Regroup(head, EncodeAll(ByteEncoder(), block[..i]), [block[i]]);
      EncodeAllSnoc(ByteEncoder(), block[..i], block[i]);
    }
    assert block[..|block|] == block;
    Regroup(old(w.buffer), EncodeInt(|block|), EncodeAll(ByteEncoder(), block));
    return Pass;
  }

  method SerializeRedefine(w: JdwpWriter, r: RedefineClassesRequest) returns (res: Outcome)
    modifies w
    ensures res.Pass? <==> RedefineFits(w.spec, r)
    ensures res.Pass? ==> w.buffer == old(w.buffer) + EncodeRedefine(w.spec, r)
  {
    hide BigEndian, FitsSigned, FitsUnsigned, EncodeCounted;
    AppendedTo(w.buffer);
    :- w.WriteReferenceTypeId(r.refType);
    res := SerializeBlock(w, r.classBytes);
  }

  method DeserializeRedefine(r: JdwpReader) returns (res: Result<RedefineClassesRequest>)
    modifies r
    ensures Agrees(res, r.offset, ReadRedefine(r.spec, r.data, old(r.offset)))
  {
    hide ReadUnsigned, ReadSigned, Wire.ReadByte;
    var refType :- r.ReadReferenceTypeId();
    var numBytes :- r.ReadInt();
    ghost var start := r.offset;
    var classBytes: bytes := [];
    var i := 0;
    while i < numBytes
      invariant 0 <= i && (i <= numBytes || i == 0)
      invariant ReadMany(ByteDecoder(), i, r.data, start) == Ok((classBytes, r.offset))
    {
      var b := r.ReadByte();
      if b.Err? {
        ReadManyStuck(ByteDecoder(), i, numBytes, r.data, start);
        return Err(b.error);
      }
      classBytes := classBytes + [b.value];
      i := i + 1;
    }
    return Ok(RedefineClassesRequest(refType, classBytes));
  }

  method SerializeRedefineClasses(w: JdwpWriter, classes: seq<RedefineClassesRequest>) returns (res: Outcome)
    modifies w
    ensures res.Pass? <==> RedefineClassesFits(w.spec, classes)
    ensures res.Pass? ==> w.buffer == old(w.buffer) + EncodeRedefineClasses(w.spec, classes)
  {
    hide EncodeRedefine, RedefineFits, BigEndian;
    :- w.WriteInt(|classes|);
    ghost var head := w.buffer;
    for i := 0 to |classes|
      invariant AllFit(RedefineFitter(w.spec), classes[..i])
      invariant w.buffer == head + EncodeAll(RedefineEncoder(w.spec), classes[..i])
    {
      Regroup(head, EncodeAll(RedefineEncoder(w.spec), classes[..i]), EncodeRedefine(w.spec, classes[i]));
      :- SerializeRedefine(w, classes[i]);
      assert classes[..i + 1] == classes[..i] + [classes[i]];
      EncodeAllSnoc(RedefineEncoder(w.spec), classes[..i], classes[i]);
    }
    assert classes[..|classes|] == classes;
    Regroup(old(w.buffer), EncodeInt(|classes|), EncodeAll(RedefineEncoder(w.spec), classes));
    return Pass;
  }

  method DeserializeRedefineClasses(r: JdwpReader) returns (res: Result<seq<RedefineClassesRequest>>)
    modifies r
    ensures Agrees(res, r.offset, ReadRedefineClasses(r.spec, r.data, old(r.offset)))
  {
    hide ReadRedefine;
    var num :- r.ReadInt();
    ghost var start := r.offset;
    var classes: seq<RedefineClassesRequest> := [];
    var i := 0;
    while i < num
      invariant 0 <= i && (i <= num || i == 0)
      invariant ReadMany(RedefineDecoder(r.spec), i, r.data, start) == Ok((classes, r.offset))
    {
      var c := DeserializeRedefine(r);
      if c.Err? {
        ReadManyStuck(RedefineDecoder(r.spec), i, num, r.data, start);
        return Err(c.error);
      }
      classes := classes + [c.value];
      i := i + 1;
    }
    return Ok(classes);
  }
}
