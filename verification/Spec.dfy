/** ID widths negotiated with the VM, and the composite values that every command shares. */
module Spec {
  import opened Results
  import opened Constants

  /** A width for which a struct format exists: ">I" or ">Q". */
  type Width = w: nat | w == 4 || w == 8 witness 8

  datatype IdSizesSpec = IdSizesSpec(
    fieldId: Width,
    methodId: Width,
    objectId: Width,
    referenceTypeId: Width,
    frameId: Width)

  const DEFAULT_SPEC := IdSizesSpec(8, 8, 8, 8, 8)

  function StructForSize(size: int): (r: Result<Width>)
  {
    if size == 4 then Ok(4)
    else if size == 8 then Ok(8)
    else Err(ValueError)
  }

  /** Builds a spec from sizes; the first unsupported size raises. */
  function CreateSpec(fieldId: int, methodId: int, objectId: int, referenceTypeId: int, frameId: int)
    : (r: Result<IdSizesSpec>)
    ensures r.Ok? <==> {fieldId, methodId, objectId, referenceTypeId, frameId} <= {4, 8}
    ensures r.Ok? ==>
              && r.value.fieldId == fieldId && r.value.methodId == methodId
              && r.value.objectId == objectId && r.value.referenceTypeId == referenceTypeId
              && r.value.frameId == frameId
  {
    var f :- StructForSize(fieldId);
    var m :- StructForSize(methodId);
    var o :- StructForSize(objectId);
    var t :- StructForSize(referenceTypeId);
    var s :- StructForSize(frameId);
    Ok(IdSizesSpec(f, m, o, t, s))
  }

  /** The spec before any negotiation has eight bytes everywhere. */
  lemma DefaultIsEight()
    ensures CreateSpec(8, 8, 8, 8, 8) == Ok(DEFAULT_SPEC)
  {
  }

  datatype Location = Location(typeTag: JdwpTypeTag, classId: int, methodId: int, index: int)

  datatype TaggedObjectId = TaggedObjectId(tag: JdwpTag, objectId: int)

  /** What a JdwpValue carries: an integer or ID, a boolean, an IEEE pattern, or None. */
  datatype Payload = Number(n: int) | Flag(b: bool) | Pattern(bits: int) | Nothing

  datatype JdwpValue = JdwpValue(tag: JdwpTag, value: Payload)
}
