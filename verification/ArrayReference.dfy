/** Array regions and ArrayReference.SetValues (commands/array_reference.py). */
module ArrayReference {
  import opened Results
  import opened Bytes
  import opened Constants
  import opened Spec
  import opened Wire
  import opened Lists
  import opened Io

  datatype JdwpArrayRegion = JdwpArrayRegion(tag: JdwpTag, values: seq<JdwpValue>)

  datatype SetValuesRequest = SetValuesRequest(arrayObject: int, firstIndex: int, tag: JdwpTag, values: seq<JdwpValue>)

  // ----- array regions -----

  /** An element under a region tag: its own tag goes to the wire only in a region of objects. */
  function EncodeElement(spec: IdSizesSpec, tag: JdwpTag, v: JdwpValue): bytes {
    (if tag.IsObject() then [v.tag.Code()] else []) + EncodeUntaggedValue(spec, v.tag, v.value)
  }

  function ReadElement(spec: IdSizesSpec, tag: JdwpTag, data: bytes, off: int): Read<JdwpValue> {
    if tag.IsObject() then ReadValue(spec, data, off)
    else
      var (x, o) :- ReadUntaggedValue(spec, tag, data, off);
      Ok((JdwpValue(tag, x), o))
  }

  function ElementEncoder(spec: IdSizesSpec, tag: JdwpTag): JdwpValue -> bytes {
    (v: JdwpValue) => EncodeElement(spec, tag, v)
  }

  function ElementDecoder(spec: IdSizesSpec, tag: JdwpTag): Decoder<JdwpValue> {
    (data: bytes, off: int) => ReadElement(spec, tag, data, off)
  }

  function ElementFitter(spec: IdSizesSpec, tag: JdwpTag): JdwpValue -> bool {
    (v: JdwpValue) => ValueFits(spec, v) && TagSuits(tag, v)
  }

  predicate TagSuits(tag: JdwpTag, v: JdwpValue) {
    tag.IsObject() || v.tag == tag
  }

  function EncodeRegion(spec: IdSizesSpec, r: JdwpArrayRegion): bytes {
    [r.tag.Code()] + EncodeCounted(ElementEncoder(spec, r.tag), r.values)
  }

  function ReadRegion(spec: IdSizesSpec, data: bytes, off: int): Read<JdwpArrayRegion> {
    var (tag, o1) :- ReadTag(data, off);
    var (values, o2) :- ReadCounted(ElementDecoder(spec, tag), data, o1);
    Ok((JdwpArrayRegion(tag, values), o2))
  }

  /** What serialize accepts: each value is in range for its own tag. */
  ghost predicate RegionFits(spec: IdSizesSpec, r: JdwpArrayRegion) {
    FitsSigned(4, |r.values|) && forall i | 0 <= i < |r.values| :: ValueFits(spec, r.values[i])
  }

  /** The region tag is an object tag, or every element carries the region's primitive tag. */
  ghost predicate Homogeneous(tag: JdwpTag, values: seq<JdwpValue>) {
    forall i | 0 <= i < |values| :: TagSuits(tag, values[i])
  }

  lemma ElementDelimits(spec: IdSizesSpec, tag: JdwpTag, v: JdwpValue, data: bytes, off: int)
    requires ValueFits(spec, v) && TagSuits(tag, v) && At(data, off, EncodeElement(spec, tag, v))
    ensures ReadElement(spec, tag, data, off) == Ok((v, off + |EncodeElement(spec, tag, v)|))
  {
    hide EncodeUntaggedValue, ReadUntaggedValue, PayloadFits;
    if tag.IsObject() {
      ValueDelimits(spec, v, data, off);
    } else {
      AtConcat(data, off, [], EncodeUntaggedValue(spec, v.tag, v.value));
      PayloadDelimits(spec, v.tag, v.value, data, off);
    }
  }

  lemma ElementsSelfDelimiting(spec: IdSizesSpec, tag: JdwpTag)
    ensures SelfDelimiting(ElementEncoder(spec, tag), ElementDecoder(spec, tag), ElementFitter(spec, tag))
  {
    hide EncodeElement, ReadElement, ValueFits, TagSuits, At;
    forall v: JdwpValue, data: bytes, off: int
      | ValueFits(spec, v) && TagSuits(tag, v) && At(data, off, ElementEncoder(spec, tag)(v))
      ensures ElementDecoder(spec, tag)(data, off) == Ok((v, off + |ElementEncoder(spec, tag)(v)|))
    {
      ElementDelimits(spec, tag, v, data, off);
    }
  }

  lemma RegionDelimits(spec: IdSizesSpec, r: JdwpArrayRegion, data: bytes, off: int)
    requires RegionFits(spec, r) && Homogeneous(r.tag, r.values) && At(data, off, EncodeRegion(spec, r))
    ensures ReadRegion(spec, data, off) == Ok((r, off + |EncodeRegion(spec, r)|))
  {
    hide EncodeElement, ReadElement, ValueFits, TagSuits, At, ReadCounted, EncodeCounted, SelfDelimiting;
    AtConcat(data, off, [r.tag.Code()], EncodeCounted(ElementEncoder(spec, r.tag), r.values));
    ByteDelimits(r.tag.Code(), data, off);
    ElementsSelfDelimiting(spec, r.tag);
    CountedDelimits(ElementEncoder(spec, r.tag), ElementDecoder(spec, r.tag), ElementFitter(spec, r.tag),
                    r.values, data, off + 1);
  }

  /** Whatever was on the wire, a decoded region is homogeneous. */
  lemma DecodedRegionIsHomogeneous(spec: IdSizesSpec, data: bytes, off: int)
    requires ReadRegion(spec, data, off).Ok?
    ensures var r := ReadRegion(spec, data, off).value.0; Homogeneous(r.tag, r.values)
  {
    hide ReadUntaggedValue, ReadSigned, ReadByte, ReadValue;
    var r := ReadRegion(spec, data, off).value.0;
    var p := (v: JdwpValue) => TagSuits(r.tag, v);
    var (tag, o1) := ReadTag(data, off).value;
    var (n, o2) := ReadInt(data, o1).value;
    ReadManyAll(ElementDecoder(spec, tag), p, n, data, o2);
    assert forall i | 0 <= i < |r.values| :: p(r.values[i]);
  }

  /**
    * The exact domain of the region codec, for all regions that serialize accepts: decoding gives the
    * region back if and only if it is homogeneous.
    */
  lemma RegionDomain(spec: IdSizesSpec, r: JdwpArrayRegion, tail: bytes)
    requires RegionFits(spec, r)
    ensures ReadRegion(spec, EncodeRegion(spec, r) + tail, 0) == Ok((r, |EncodeRegion(spec, r)|))
            <==> Homogeneous(r.tag, r.values)
  {
    hide RegionFits, Homogeneous, EncodeRegion, ReadRegion;
    var data := EncodeRegion(spec, r) + tail;
    if Homogeneous(r.tag, r.values) {
      RegionDelimits(spec, r, data, 0);
    } else if ReadRegion(spec, data, 0).Ok? {
      DecodedRegionIsHomogeneous(spec, data, 0);
    }
  }

  // ----- SetValues: the tag of the elements is not on the wire -----

  function SlotEncoder(spec: IdSizesSpec, tag: JdwpTag): JdwpValue -> bytes {
    (v: JdwpValue) => EncodeUntaggedValue(spec, tag, v.value)
  }

  function SlotDecoder(spec: IdSizesSpec, tag: JdwpTag): Decoder<JdwpValue> {
    (data: bytes, off: int) => ReadSlot(spec, tag, data, off)
  }

  function ReadSlot(spec: IdSizesSpec, tag: JdwpTag, data: bytes, off: int): Read<JdwpValue> {
    var (x, o) :- ReadUntaggedValue(spec, tag, data, off);
    Ok((JdwpValue(tag, x), o))
  }

  function SlotFitter(spec: IdSizesSpec, tag: JdwpTag): JdwpValue -> bool {
    (v: JdwpValue) => PayloadFits(spec, tag, v.value) && v.tag == tag
  }

  function EncodeSetValues(spec: IdSizesSpec, c: SetValuesRequest): bytes {
    (BigEndian(spec.objectId, c.arrayObject) + EncodeInt(c.firstIndex)) + EncodeCounted(SlotEncoder(spec, c.tag), c.values)
  }

  /** The tag is the reader's `array_element_tag`, if it has one; a JdwpReader has none. */
  function ReadSetValues(spec: IdSizesSpec, elementTag: Option<JdwpTag>, data: bytes, off: int)
    : Read<SetValuesRequest>
  {
    var (array_, o1) :- ReadUnsigned(spec.objectId, data, off);
    var (first, o2) :- ReadInt(data, o1);
    var tag := if elementTag.Some? then elementTag.value else INT;
    var (values, o3) :- ReadCounted(SlotDecoder(spec, tag), data, o2);
    Ok((SetValuesRequest(array_, first, tag, values), o3))
  }

  /** What serialize accepts: each payload is in range for the command's tag, whatever its own tag. */
  ghost predicate SetValuesFits(spec: IdSizesSpec, c: SetValuesRequest) {
    && FitsUnsigned(spec.objectId, c.arrayObject) && FitsSigned(4, c.firstIndex) && FitsSigned(4, |c.values|)
    && forall i | 0 <= i < |c.values| :: PayloadFits(spec, c.tag, c.values[i].value)
  }

  ghost predicate AllCarry(tag: JdwpTag, values: seq<JdwpValue>) {
    forall i | 0 <= i < |values| :: values[i].tag == tag
  }

  lemma SlotsSelfDelimiting(spec: IdSizesSpec, tag: JdwpTag)
    ensures SelfDelimiting(SlotEncoder(spec, tag), SlotDecoder(spec, tag), SlotFitter(spec, tag))
  {
    hide EncodeUntaggedValue, ReadUntaggedValue, PayloadFits, At;
    forall v: JdwpValue, data: bytes, off: int
      | PayloadFits(spec, tag, v.value) && v.tag == tag && At(data, off, SlotEncoder(spec, tag)(v))
      ensures SlotDecoder(spec, tag)(data, off) == Ok((v, off + |SlotEncoder(spec, tag)(v)|))
    {
      PayloadDelimits(spec, tag, v.value, data, off);
    }
  }

  lemma SlotsFit(spec: IdSizesSpec, c: SetValuesRequest)
    requires SetValuesFits(spec, c) && AllCarry(c.tag, c.values)
    ensures AllFit(SlotFitter(spec, c.tag), c.values)
  {
    hide PayloadFits;
  }

  lemma SetValuesDelimits(spec: IdSizesSpec, c: SetValuesRequest, elementTag: Option<JdwpTag>,
                          data: bytes, off: int)
    requires SetValuesFits(spec, c) && AllCarry(c.tag, c.values)
    requires c.tag == if elementTag.Some? then elementTag.value else INT
    requires At(data, off, EncodeSetValues(spec, c))
    ensures ReadSetValues(spec, elementTag, data, off) == Ok((c, off + |EncodeSetValues(spec, c)|))
  {
    hide EncodeUntaggedValue, ReadUntaggedValue, PayloadFits, At, ReadCounted, EncodeCounted, SelfDelimiting,
         BigEndian, FitsUnsigned, FitsSigned, ReadUnsigned, ReadSigned, AllFit;
    assert AllFit(SlotFitter(spec, c.tag), c.values) by { SlotsFit(spec, c); }
    var id, first := BigEndian(spec.objectId, c.arrayObject), EncodeInt(c.firstIndex);
    AtConcat(data, off, id + first, EncodeCounted(SlotEncoder(spec, c.tag), c.values));
    AtConcat(data, off, id, first);
    UnsignedDelimits(spec.objectId, c.arrayObject, data, off);
    SignedDelimits(4, c.firstIndex, data, off + spec.objectId);
    SlotsSelfDelimiting(spec, c.tag);
    CountedDelimits(SlotEncoder(spec, c.tag), SlotDecoder(spec, c.tag), SlotFitter(spec, c.tag),
                    c.values, data, off + spec.objectId + 4);
  }

  /** Decoded values carry the tag of the reader, and so does the command. */
  lemma DecodedTags(spec: IdSizesSpec, elementTag: Option<JdwpTag>, data: bytes, off: int)
    requires ReadSetValues(spec, elementTag, data, off).Ok?
    ensures var c := ReadSetValues(spec, elementTag, data, off).value.0;
            && c.tag == (if elementTag.Some? then elementTag.value else INT)
            && AllCarry(c.tag, c.values)
  {
    hide ReadUntaggedValue, ReadSigned, ReadUnsigned;
    var c := ReadSetValues(spec, elementTag, data, off).value.0;
    var p := (v: JdwpValue) => v.tag == c.tag;
    var (_, o1) := ReadUnsigned(spec.objectId, data, off).value;
    var (_, o2) := ReadInt(data, o1).value;
    var (n, o3) := ReadInt(data, o2).value;
    ReadManyAll(SlotDecoder(spec, c.tag), p, n, data, o3);
    assert forall i | 0 <= i < |c.values| :: p(c.values[i]);
  }

  /**
    * The exact domain of the SetValues codec, for all commands that serialize accepts and any reader: the
    * command comes back if and only if the reader's tag (INT by default) is the command's tag and every
    * value carries it.
    */
  lemma SetValuesDomain(spec: IdSizesSpec, c: SetValuesRequest, elementTag: Option<JdwpTag>, tail: bytes)
    requires SetValuesFits(spec, c)
    ensures ReadSetValues(spec, elementTag, EncodeSetValues(spec, c) + tail, 0)
              == Ok((c, |EncodeSetValues(spec, c)|))
            <==> c.tag == (if elementTag.Some? then elementTag.value else INT) && AllCarry(c.tag, c.values)
  {
    hide SetValuesFits, AllCarry, EncodeSetValues, ReadSetValues;
    var data := EncodeSetValues(spec, c) + tail;
    if c.tag == (if elementTag.Some? then elementTag.value else INT) && AllCarry(c.tag, c.values) {
      SetValuesDelimits(spec, c, elementTag, data, 0);
    } else if ReadSetValues(spec, elementTag, data, 0).Ok? {
      DecodedTags(spec, elementTag, data, 0);
    }
  }

  // ----- the stateful serializers -----

  method SerializeRegion(w: JdwpWriter, region: JdwpArrayRegion) returns (r: Outcome)
    modifies w
    ensures r.Pass? <==> RegionFits(w.spec, region)
    ensures r.Pass? ==> w.buffer == old(w.buffer) + EncodeRegion(w.spec, region)
  {
    hide BigEndian, ValueFits, EncodeElement, FitsSigned, JdwpTag.Code;
    ghost var enc := ElementEncoder(w.spec, region.tag);
    w.WriteByte(region.tag.Code());
    :- w.WriteInt(|region.values|);
    ghost var head := w.buffer;
    for i := 0 to |region.values|
      invariant forall k | 0 <= k < i :: ValueFits(w.spec, region.values[k])
      invariant w.buffer == head + EncodeAll(enc, region.values[..i])
    {
      Regroup(head, EncodeAll(enc, region.values[..i]), EncodeElement(w.spec, region.tag, region.values[i]));
      :- SerializeElement(w, region.tag, region.values[i]);
      assert region.values[..i + 1] == region.values[..i] + [region.values[i]];
      EncodeAllSnoc(enc, region.values[..i], region.values[i]);
    }
    assert region.values[..|region.values|] == region.values;
    Regroup(old(w.buffer) + [region.tag.Code()], EncodeInt(|region.values|), EncodeAll(enc, region.values));
    Regroup(old(w.buffer), [region.tag.Code()], EncodeCounted(enc, region.values));
    return Pass;
  }

  method SerializeElement(w: JdwpWriter, tag: JdwpTag, val: JdwpValue) returns (r: Outcome)
    modifies w
    ensures r.Pass? <==> ValueFits(w.spec, val)
    ensures r.Pass? ==> w.buffer == old(w.buffer) + EncodeElement(w.spec, tag, val)
    ensures old(w.buffer) <= w.buffer
  {
    hide PayloadFits, EncodeUntaggedValue;
    AppendedTo(w.buffer);
    if tag.IsObject() {
      w.WriteByte(val.tag.Code());
    }
    r := w.WriteUntaggedValue(val.tag, val.value);
  }

  method DeserializeElement(r: JdwpReader, tag: JdwpTag) returns (res: Result<JdwpValue>)
    modifies r
    ensures Agrees(res, r.offset, ReadElement(r.spec, tag, r.data, old(r.offset)))
  {
    hide ReadUntaggedValue, Wire.ReadByte;
    var elemTag := tag;
    if tag.IsObject() {
      elemTag :- r.ReadTag();
    }
    var val :- r.ReadUntaggedValue(elemTag);
    return Ok(JdwpValue(elemTag, val));
  }

  method DeserializeRegion(r: JdwpReader) returns (res: Result<JdwpArrayRegion>)
    modifies r
    ensures Agrees(res, r.offset, ReadRegion(r.spec, r.data, old(r.offset)))
  {
    hide ReadElement, Wire.ReadTag, ReadSigned;
    var tag :- r.ReadTag();
    var num :- r.ReadInt();
    ghost var start := r.offset;
    var values: seq<JdwpValue> := [];
    var i := 0;
    while i < num
      invariant 0 <= i && (i <= num || i == 0)
      invariant ReadMany(ElementDecoder(r.spec, tag), i, r.data, start) == Ok((values, r.offset))
    {
      var v := DeserializeElement(r, tag);
      if v.Err? {
        ReadManyStuck(ElementDecoder(r.spec, tag), i, num, r.data, start);
        return Err(v.error);
      }
      values := values + [v.value];
      i := i + 1;
    }
    return Ok(JdwpArrayRegion(tag, values));
  }

  /** The count and the loop over the values, all written under the command's tag. */
  method SerializeSlots(w: JdwpWriter, tag: JdwpTag, values: seq<JdwpValue>) returns (r: Outcome)
    modifies w
    ensures r.Pass? <==>
              FitsSigned(4, |values|) && forall i | 0 <= i < |values| :: PayloadFits(w.spec, tag, values[i].value)
    ensures r.Pass? ==> w.buffer == old(w.buffer) + EncodeCounted(SlotEncoder(w.spec, tag), values)
  {
    hide BigEndian, PayloadFits, EncodeUntaggedValue, FitsSigned;
    ghost var enc := SlotEncoder(w.spec, tag);
    :- w.WriteInt(|values|);
    ghost var head := w.buffer;
    for i := 0 to |values|
      invariant forall k | 0 <= k < i :: PayloadFits(w.spec, tag, values[k].value)
      invariant w.buffer == head + EncodeAll(enc, values[..i])
    {
      Regroup(head, EncodeAll(enc, values[..i]), EncodeUntaggedValue(w.spec, tag, values[i].value));
      :- w.WriteUntaggedValue(tag, values[i].value);
      assert values[..i + 1] == values[..i] + [values[i]];
      EncodeAllSnoc(enc, values[..i], values[i]);
    }
    assert values[..|values|] == values;
    Regroup(old(w.buffer), EncodeInt(|values|), EncodeAll(enc, values));
    return Pass;
  }

  method SerializeSetValues(w: JdwpWriter, c: SetValuesRequest) returns (r: Outcome)
    modifies w
    ensures r.Pass? <==> SetValuesFits(w.spec, c)
    ensures r.Pass? ==> w.buffer == old(w.buffer) + EncodeSetValues(w.spec, c)
  {
    hide BigEndian, PayloadFits, EncodeCounted, FitsSigned, FitsUnsigned;
    AppendedTo(w.buffer);
    :- w.WriteObjectId(c.arrayObject);
    :- w.WriteInt(c.firstIndex);
    r := SerializeSlots(w, c.tag, c.values);
  }

  method DeserializeSetValues(r: JdwpReader, elementTag: Option<JdwpTag>) returns (res: Result<SetValuesRequest>)
    modifies r
    ensures Agrees(res, r.offset, ReadSetValues(r.spec, elementTag, r.data, old(r.offset)))
  {
    hide ReadUntaggedValue, ReadUnsigned, ReadSigned;
    var arrayObject :- r.ReadObjectId();
    var firstIndex :- r.ReadInt();
    var num :- r.ReadInt();
    var tag := if elementTag.Some? then elementTag.value else INT;
    ghost var start := r.offset;
    var values: seq<JdwpValue> := [];
    var i := 0;
    while i < num
      invariant 0 <= i && (i <= num || i == 0)
      invariant ReadMany(SlotDecoder(r.spec, tag), i, r.data, start) == Ok((values, r.offset))
    {
      var val := r.ReadUntaggedValue(tag);
      if val.Err? {
        ReadManyStuck(SlotDecoder(r.spec, tag), i, num, r.data, start);
        return Err(val.error);
      }
      values := values + [JdwpValue(tag, val.value)];
      i := i + 1;
    }
    return Ok(SetValuesRequest(arrayObject, firstIndex, tag, values));
  }
}
