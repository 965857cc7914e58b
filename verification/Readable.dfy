/** What a decoder returns can be written again: the encoders' ranges are no narrower than the wire. */
module Readable {
  import opened Results
  import opened Bytes
  import opened Utf8
  import opened Constants
  import opened Spec
  import opened Wire
  import opened Lists
  import opened Event
  import opened EventRequest
  import opened ArrayReference
  import opened Vm
  import opened Commands

  /** A buffer shorter than 2^31 bytes, so that no part of it is too long for a length field. */
  predicate IsShort(data: bytes) {
    |data| < 0x8000_0000
  }

  lemma FieldsFit(data: bytes)
    ensures forall n: nat, off: int :: ReadUnsigned(n, data, off).Ok? ==> FitsUnsigned(n, ReadUnsigned(n, data, off).value.0)
    ensures forall n: nat, off: int :: ReadSigned(n, data, off).Ok? ==> FitsSigned(n, ReadSigned(n, data, off).value.0)
  {
    forall n: nat, off: int | ReadSigned(n, data, off).Ok?
      ensures FitsSigned(n, ReadSigned(n, data, off).value.0)
    {
      BigEndianOfSigned(ReadField(n, data, off).value.0);
    }
  }

  lemma StringFitsAgain(data: bytes, off: int)
    requires ReadString(data, off).Ok?
    ensures StringFits(ReadString(data, off).value.0) <==> IsShort(ReadString(data, off).value.0)
    ensures |ReadString(data, off).value.0| <= |data|
  {
    FormatRanges(|ReadString(data, off).value.0|);
  }

  /** A string whose length field promises more than the buffer holds is what is left of the buffer. */
  lemma CutShortString(data: bytes, off: int)
    requires ReadInt(data, off).Ok?
    requires var (n, o) := ReadInt(data, off).value; 0 <= o <= |data| < o + n
    ensures var (n, o) := ReadInt(data, off).value;
            ReadString(data, off) == if IsUtf8(data[o..]) then Ok((data[o..], o + n)) else Err(UnicodeError)
  {
    hide ReadSigned, IsUtf8;
  }

  /** Every byte but zero is true. */
  lemma BooleanOfByte(data: bytes, off: int)
    ensures ReadBoolean(data, off) ==
              match ReadByte(data, off) case Ok((b, o)) => Ok((b > 0, o)) case Err(e) => Err(e)
  {
  }

  lemma LocationFitsAgain(spec: IdSizesSpec, data: bytes, off: int)
    requires ReadLocation(spec, data, off).Ok?
    ensures LocationFits(spec, ReadLocation(spec, data, off).value.0)
  {
    hide ReadUnsigned, ReadSigned, FitsUnsigned, FitsSigned, ReadTypeTag;
    FieldsFit(data);
  }

  lemma TaggedObjectFitsAgain(spec: IdSizesSpec, data: bytes, off: int)
    requires ReadTaggedObject(spec, data, off).Ok?
    ensures TaggedObjectFits(spec, ReadTaggedObject(spec, data, off).value.0)
  {
    hide ReadUnsigned, FitsUnsigned, ReadTag;
    FieldsFit(data);
  }

  lemma PayloadFitsAgain(spec: IdSizesSpec, tag: JdwpTag, data: bytes, off: int)
    requires ReadUntaggedValue(spec, tag, data, off).Ok?
    ensures PayloadFits(spec, tag, ReadUntaggedValue(spec, tag, data, off).value.0)
  {
    hide ReadUnsigned, ReadSigned, FitsUnsigned, FitsSigned;
    FieldsFit(data);
  }

  lemma ValueFitsAgain(spec: IdSizesSpec, data: bytes, off: int)
    requires ReadValue(spec, data, off).Ok?
    ensures ValueFits(spec, ReadValue(spec, data, off).value.0)
  {
    hide ReadUntaggedValue, PayloadFits, ReadTag;
    var (tag, o) := ReadTag(data, off).value;
    PayloadFitsAgain(spec, tag, data, o);
  }

  /** The same for every position of a short buffer. */
  lemma PartsFit(spec: IdSizesSpec, data: bytes)
    requires IsShort(data)
    ensures forall off: int :: ReadString(data, off).Ok? ==> StringFits(ReadString(data, off).value.0)
    ensures forall off: int :: ReadLocation(spec, data, off).Ok? ==> LocationFits(spec, ReadLocation(spec, data, off).value.0)
    ensures forall off: int ::
              ReadTaggedObject(spec, data, off).Ok? ==> TaggedObjectFits(spec, ReadTaggedObject(spec, data, off).value.0)
    ensures forall off: int :: ReadValue(spec, data, off).Ok? ==> ValueFits(spec, ReadValue(spec, data, off).value.0)
  {
    hide ReadString, StringFits, ReadLocation, LocationFits, ReadTaggedObject, TaggedObjectFits, ReadValue, ValueFits;
    forall off: int | ReadString(data, off).Ok? ensures StringFits(ReadString(data, off).value.0) {
      StringFitsAgain(data, off);
    }
    forall off: int | ReadLocation(spec, data, off).Ok?
      ensures LocationFits(spec, ReadLocation(spec, data, off).value.0)
    {
      LocationFitsAgain(spec, data, off);
    }
    forall off: int | ReadTaggedObject(spec, data, off).Ok?
      ensures TaggedObjectFits(spec, ReadTaggedObject(spec, data, off).value.0)
    {
      TaggedObjectFitsAgain(spec, data, off);
    }
    forall off: int | ReadValue(spec, data, off).Ok? ensures ValueFits(spec, ReadValue(spec, data, off).value.0) {
      ValueFitsAgain(spec, data, off);
    }
  }

  // ----- events -----

  /** The one value that can be read but not written: the class status of the wire number -2^31. */
  predicate HasWideStatus(e: JdwpEvent) {
    e.ClassPrepare? && e.status == 0x8000_0000
  }

  lemma StatusFitsAgain(n: int)
    requires FitsSigned(4, n)
    ensures FitsSigned(4, ClassStatusOf(n)) <==> ClassStatusOf(n) != 0x8000_0000
  {
    FormatRanges(n);
    FormatRanges(ClassStatusOf(n));
  }

  lemma {:induction false} PowersAreDoubled(p: nat)
    requires IsPowerOfTwo(p)
    ensures PowerAbove(p) == 2 * p
  {
    if p > 1 {
      PowersAreDoubled(p / 2);
    }
  }

  lemma Doubling(p: nat)
    requires IsPowerOfTwo(p)
    ensures IsPowerOfTwo(2 * p)
  {
    assert 2 * p / 2 == p;
  }

  lemma ByteShift(p: nat)
    requires IsPowerOfTwo(p)
    ensures IsPowerOfTwo(256 * p)
  {
    hide IsPowerOfTwo;
    Doubling(p);
    Doubling(2 * p);
    Doubling(4 * p);
    Doubling(8 * p);
    Doubling(16 * p);
    Doubling(32 * p);
    Doubling(64 * p);
    Doubling(128 * p);
  }

  /** Such a number exists. */
  lemma WideStatusIsRead()
    ensures ClassStatusOf(-0x8000_0000) == 0x8000_0000
  {
    assert IsPowerOfTwo(0x80);
    hide IsPowerOfTwo, PowerAbove;
    ByteShift(0x80);
    ByteShift(0x8000);
    ByteShift(0x80_0000);
    PowersAreDoubled(0x8000_0000);
  }

  lemma EventBodyFitsAgain(spec: IdSizesSpec, kind: JdwpEventKind, id: int, data: bytes, off: int)
    requires IsShort(data) && FitsSigned(4, id) && ReadEventBody(spec, kind, id, data, off).Ok?
    ensures var e := ReadEventBody(spec, kind, id, data, off).value.0; EventFits(spec, e) <==> !HasWideStatus(e)
  {
    hide ReadUnsigned, ReadSigned, FitsUnsigned, FitsSigned, ReadString, StringFits, ReadLocation, LocationFits,
         ReadTaggedObject, TaggedObjectFits, ReadValue, ValueFits, ReadBoolean, ReadTypeTag, ClassStatusOf;
    FieldsFit(data);
    PartsFit(spec, data);
    forall n: int | FitsSigned(4, n)
      ensures FitsSigned(4, ClassStatusOf(n)) <==> ClassStatusOf(n) != 0x8000_0000
    {
      StatusFitsAgain(n);
    }
  }

  /** A decoded event can be written again, unless it is a ClassPrepare with that status. */
  lemma EventFitsAgain(spec: IdSizesSpec, data: bytes, off: int)
    requires IsShort(data) && ReadEvent(spec, data, off).Ok?
    ensures var e := ReadEvent(spec, data, off).value.0; EventFits(spec, e) <==> !HasWideStatus(e)
  {
    hide ReadSigned, FitsSigned, ReadEventBody, EventFits;
    FieldsFit(data);
    var (b, o1) := ReadByte(data, off).value;
    var (id, o2) := ReadInt(data, o1).value;
    EventBodyFitsAgain(spec, EventKindOfCode(b).value, id, data, o2);
  }

  lemma CountFits(n: int, length: nat)
    requires FitsSigned(4, n) && length == if n < 0 then 0 else n
    ensures FitsSigned(4, length)
  {
    FormatRanges(n);
    FormatRanges(length);
  }

  lemma CompositeFitsAgain(spec: IdSizesSpec, data: bytes, off: int)
    requires IsShort(data) && ReadComposite(spec, data, off).Ok?
    ensures var c := ReadComposite(spec, data, off).value.0;
            CompositeFits(spec, c) <==> forall i | 0 <= i < |c.events| :: !HasWideStatus(c.events[i])
  {
    hide ReadEvent, EventFits, HasWideStatus, ReadSigned, FitsSigned, ReadByte;
    var c := ReadComposite(spec, data, off).value.0;
    var p := (e: JdwpEvent) => EventFits(spec, e) <==> !HasWideStatus(e);
    var (_, o1) := ReadByte(data, off).value;
    var (n, o2) := ReadInt(data, o1).value;
    FieldsFit(data);
    CountFits(n, |c.events|);
    forall o: int | EventDecoder(spec)(data, o).Ok? ensures p(EventDecoder(spec)(data, o).value.0) {
      EventFitsAgain(spec, data, o);
    }
    ReadManyAll(EventDecoder(spec), p, n, data, o2);
    assert forall i | 0 <= i < |c.events| :: p(c.events[i]);
  }

  // ----- everything else can always be written again -----

  lemma ModifierFitsAgain(spec: IdSizesSpec, data: bytes, off: int)
    requires IsShort(data) && ReadModifier(spec, data, off).Ok?
    ensures ModifierFits(spec, ReadModifier(spec, data, off).value.0)
  {
    hide ReadUnsigned, ReadSigned, FitsUnsigned, FitsSigned, ReadString, StringFits, ReadLocation, LocationFits,
         ReadBoolean, ReadByte;
    FieldsFit(data);
    PartsFit(spec, data);
  }

  lemma SetFitsAgain(spec: IdSizesSpec, data: bytes, off: int)
    requires IsShort(data) && ReadSet(spec, data, off).Ok?
    ensures SetFits(spec, ReadSet(spec, data, off).value.0)
  {
    hide ReadModifier, ModifierFits, ReadSigned, FitsSigned, ReadByte;
    var c := ReadSet(spec, data, off).value.0;
    var (_, o1) := ReadByte(data, off).value;
    var (_, o2) := ReadByte(data, o1).value;
    var (n, o3) := ReadInt(data, o2).value;
    FieldsFit(data);
    CountFits(n, |c.modifiers|);
    forall o: int | ModifierDecoder(spec)(data, o).Ok?
      ensures ModifierFitter(spec)(ModifierDecoder(spec)(data, o).value.0)
    {
      ModifierFitsAgain(spec, data, o);
    }
    ReadManyAll(ModifierDecoder(spec), ModifierFitter(spec), n, data, o3);
  }

  lemma RegionFitsAgain(spec: IdSizesSpec, data: bytes, off: int)
    requires ReadRegion(spec, data, off).Ok?
    ensures RegionFits(spec, ReadRegion(spec, data, off).value.0)
  {
    hide ReadUntaggedValue, PayloadFits, ReadSigned, FitsSigned, ReadValue, ReadTag;
    var r := ReadRegion(spec, data, off).value.0;
    var (tag, o1) := ReadTag(data, off).value;
    var (n, o2) := ReadInt(data, o1).value;
    FieldsFit(data);
    CountFits(n, |r.values|);
    var p := (v: JdwpValue) => ValueFits(spec, v);
    forall o: int | ElementDecoder(spec, tag)(data, o).Ok? ensures p(ElementDecoder(spec, tag)(data, o).value.0) {
      if tag.IsObject() {
        ValueFitsAgain(spec, data, o);
      } else {
        PayloadFitsAgain(spec, tag, data, o);
      }
    }
    ReadManyAll(ElementDecoder(spec, tag), p, n, data, o2);
    assert forall i | 0 <= i < |r.values| :: p(r.values[i]);
  }

  lemma SetValuesFitsAgain(spec: IdSizesSpec, elementTag: Option<JdwpTag>, data: bytes, off: int)
    requires ReadSetValues(spec, elementTag, data, off).Ok?
    ensures SetValuesFits(spec, ReadSetValues(spec, elementTag, data, off).value.0)
  {
    hide ReadUntaggedValue, PayloadFits, ReadSigned, FitsSigned, ReadUnsigned, FitsUnsigned;
    var c := ReadSetValues(spec, elementTag, data, off).value.0;
    var (_, o1) := ReadUnsigned(spec.objectId, data, off).value;
    var (_, o2) := ReadInt(data, o1).value;
    var (n, o3) := ReadInt(data, o2).value;
    FieldsFit(data);
    CountFits(n, |c.values|);
    var p := (v: JdwpValue) => PayloadFits(spec, c.tag, v.value);
    forall o: int | SlotDecoder(spec, c.tag)(data, o).Ok? ensures p(SlotDecoder(spec, c.tag)(data, o).value.0) {
      PayloadFitsAgain(spec, c.tag, data, o);
    }
    ReadManyAll(SlotDecoder(spec, c.tag), p, n, data, o3);
    assert forall i | 0 <= i < |c.values| :: p(c.values[i]);
  }

  lemma RedefineFitsAgain(spec: IdSizesSpec, data: bytes, off: int)
    requires ReadRedefine(spec, data, off).Ok?
    ensures RedefineFits(spec, ReadRedefine(spec, data, off).value.0)
  {
    hide ReadSigned, FitsSigned, ReadUnsigned, FitsUnsigned;
    var r := ReadRedefine(spec, data, off).value.0;
    var (_, o1) := ReadUnsigned(spec.referenceTypeId, data, off).value;
    var (n, _) := ReadInt(data, o1).value;
    FieldsFit(data);
    CountFits(n, |r.classBytes|);
  }

  lemma RedefineClassesFitsAgain(spec: IdSizesSpec, data: bytes, off: int)
    requires ReadRedefineClasses(spec, data, off).Ok?
    ensures RedefineClassesFits(spec, ReadRedefineClasses(spec, data, off).value.0)
  {
    hide ReadSigned, FitsSigned, ReadRedefine, RedefineFits;
    var classes := ReadRedefineClasses(spec, data, off).value.0;
    var (n, o) := ReadInt(data, off).value;
    FieldsFit(data);
    CountFits(n, |classes|);
    forall p: int | RedefineDecoder(spec)(data, p).Ok?
      ensures RedefineFitter(spec)(RedefineDecoder(spec)(data, p).value.0)
    {
      RedefineFitsAgain(spec, data, p);
    }
    ReadManyAll(RedefineDecoder(spec), RedefineFitter(spec), n, data, o);
  }

  lemma IdSizesFitsAgain(data: bytes, off: int)
    requires ReadIdSizes(data, off).Ok?
    ensures IdSizesFits(ReadIdSizes(data, off).value.0)
  {
    hide ReadSigned, FitsSigned;
    FieldsFit(data);
  }

  /** Every command that can be decoded from a short payload can be sent on, but for that class status. */
  lemma CommandFitsAgain(spec: IdSizesSpec, commandSet: int, command: int, data: bytes)
    requires IsShort(data) && ReadCommand(spec, commandSet, command, data).Ok?
    ensures var c := ReadCommand(spec, commandSet, command, data).value;
            CommandFits(spec, c) <==>
              (c.EventComposite? ==> forall i | 0 <= i < |c.composite.events| :: !HasWideStatus(c.composite.events[i]))
  {
    hide ReadComposite, CompositeFits, ReadSet, SetFits, ReadSetValues, SetValuesFits, ReadRedefineClasses,
         RedefineClassesFits, ReadUnsigned, ReadSigned, FitsUnsigned, FitsSigned, ReadByte, HasWideStatus;
    FieldsFit(data);
    match ReadCommand(spec, commandSet, command, data).value {
      case RedefineClasses(_) => RedefineClassesFitsAgain(spec, data, 0);
      case ArraySetValues(_) => SetValuesFitsAgain(spec, None, data, 0);
      case EventSet(_) => SetFitsAgain(spec, data, 0);
      case EventComposite(_) => CompositeFitsAgain(spec, data, 0);
      case _ =>
    }
  }
}
