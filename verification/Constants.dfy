/** The protocol enumerations: each has a wire code and a partial inverse that raises ValueError. */
module Constants {
  import opened Results
  import opened Bytes

  datatype JdwpTag =
    | ARRAY | BYTE | CHAR | OBJECT | FLOAT | DOUBLE | INT | LONG | SHORT | VOID | BOOLEAN
    | STRING | THREAD | THREAD_GROUP | CLASS_LOADER | CLASS_OBJECT
  {
    predicate IsObject() {
      ARRAY? || OBJECT? || STRING? || THREAD? || THREAD_GROUP? || CLASS_LOADER? || CLASS_OBJECT?
    }

    function Code(): (c: byte)
      ensures TagOfCode(c) == Ok(this)
    {
      match this
      case ARRAY => 91
      case BYTE => 66
      case CHAR => 67
      case OBJECT => 76
      case FLOAT => 70
      case DOUBLE => 68
      case INT => 73
      case LONG => 74
      case SHORT => 83
      case VOID => 86
      case BOOLEAN => 90
      case STRING => 115
      case THREAD => 116
      case THREAD_GROUP => 103
      case CLASS_LOADER => 108
      case CLASS_OBJECT => 99
    }
  }

  function TagOfCode(c: byte): Result<JdwpTag> {
    match c
    case 91 => Ok(ARRAY)
    case 66 => Ok(BYTE)
    case 67 => Ok(CHAR)
    case 76 => Ok(OBJECT)
    case 70 => Ok(FLOAT)
    case 68 => Ok(DOUBLE)
    case 73 => Ok(INT)
    case 74 => Ok(LONG)
    case 83 => Ok(SHORT)
    case 86 => Ok(VOID)
    case 90 => Ok(BOOLEAN)
    case 115 => Ok(STRING)
    case 116 => Ok(THREAD)
    case 103 => Ok(THREAD_GROUP)
    case 108 => Ok(CLASS_LOADER)
    case 99 => Ok(CLASS_OBJECT)
    case _ => Err(ValueError)
  }

  datatype JdwpTypeTag = CLASS | INTERFACE | ARRAY_TYPE
  {
    function Code(): (c: byte)
      ensures TypeTagOfCode(c) == Ok(this)
    {
      match this
      case CLASS => 1
      case INTERFACE => 2
      case ARRAY_TYPE => 3
    }
  }

  function TypeTagOfCode(c: byte): Result<JdwpTypeTag> {
    match c
    case 1 => Ok(CLASS)
    case 2 => Ok(INTERFACE)
    case 3 => Ok(ARRAY_TYPE)
    case _ => Err(ValueError)
  }

  datatype JdwpSuspendPolicy = SUSPEND_NONE | SUSPEND_EVENT_THREAD | SUSPEND_ALL
  {
    function Code(): (c: byte)
      ensures SuspendPolicyOfCode(c) == Ok(this)
    {
      match this
      case SUSPEND_NONE => 0
      case SUSPEND_EVENT_THREAD => 1
      case SUSPEND_ALL => 2
    }
  }

  function SuspendPolicyOfCode(c: byte): Result<JdwpSuspendPolicy> {
    match c
    case 0 => Ok(SUSPEND_NONE)
    case 1 => Ok(SUSPEND_EVENT_THREAD)
    case 2 => Ok(SUSPEND_ALL)
    case _ => Err(ValueError)
  }

  datatype JdwpEventKind =
    | SINGLE_STEP | BREAKPOINT | FRAME_POP | EXCEPTION | USER_DEFINED | THREAD_START | THREAD_DEATH
    | CLASS_PREPARE | CLASS_UNLOAD | CLASS_LOAD | FIELD_ACCESS | FIELD_MODIFICATION | EXCEPTION_CATCH
    | METHOD_ENTRY | METHOD_EXIT | METHOD_EXIT_WITH_RETURN_VALUE | MONITOR_CONTENDED_ENTER
    | MONITOR_CONTENDED_ENTERED | MONITOR_WAIT | MONITOR_WAITED | VM_START | VM_DEATH
  {
    function Code(): (c: byte)
      ensures EventKindOfCode(c) == Ok(this)
    {
      match this
      case SINGLE_STEP => 1
      case BREAKPOINT => 2
      case FRAME_POP => 3
      case EXCEPTION => 4
      case USER_DEFINED => 5
      case THREAD_START => 6
      case THREAD_DEATH => 7
      case CLASS_PREPARE => 8
      case CLASS_UNLOAD => 9
      case CLASS_LOAD => 10
      case FIELD_ACCESS => 20
      case FIELD_MODIFICATION => 21
      case EXCEPTION_CATCH => 30
      case METHOD_ENTRY => 40
      case METHOD_EXIT => 41
      case METHOD_EXIT_WITH_RETURN_VALUE => 42
      case MONITOR_CONTENDED_ENTER => 43
      case MONITOR_CONTENDED_ENTERED => 44
      case MONITOR_WAIT => 45
      case MONITOR_WAITED => 46
      case VM_START => 90
      case VM_DEATH => 99
    }
  }

  function EventKindOfCode(c: byte): Result<JdwpEventKind> {
    match c
    case 1 => Ok(SINGLE_STEP)
    case 2 => Ok(BREAKPOINT)
    case 3 => Ok(FRAME_POP)
    case 4 => Ok(EXCEPTION)
    case 5 => Ok(USER_DEFINED)
    case 6 => Ok(THREAD_START)
    case 7 => Ok(THREAD_DEATH)
    case 8 => Ok(CLASS_PREPARE)
    case 9 => Ok(CLASS_UNLOAD)
    case 10 => Ok(CLASS_LOAD)
    case 20 => Ok(FIELD_ACCESS)
    case 21 => Ok(FIELD_MODIFICATION)
    case 30 => Ok(EXCEPTION_CATCH)
    case 40 => Ok(METHOD_ENTRY)
    case 41 => Ok(METHOD_EXIT)
    case 42 => Ok(METHOD_EXIT_WITH_RETURN_VALUE)
    case 43 => Ok(MONITOR_CONTENDED_ENTER)
    case 44 => Ok(MONITOR_CONTENDED_ENTERED)
    case 45 => Ok(MONITOR_WAIT)
    case 46 => Ok(MONITOR_WAITED)
    case 90 => Ok(VM_START)
    case 99 => Ok(VM_DEATH)
    case _ => Err(ValueError)
  }

  /**
    * JdwpClassStatus(n): an IntFlag of four bits that keeps unknown bits and never is negative. A negative
    * number of at most four bits is taken modulo 16, a longer one modulo the next power of two.
    */
  function ClassStatusOf(n: int): (status: nat)
    ensures n >= 0 ==> status == n
    ensures -16 <= n < 0 ==> status == n % 16
    ensures n < -16 ==> IsPowerOfTwo(status - n) && -n < status - n <= -2 * n
  {
    if n >= 0 then n
    else if n >= -16 then 16 + n
    else PowerAbove(-n) + n
  }

  predicate IsPowerOfTwo(p: nat) {
    p == 1 || (p > 1 && p % 2 == 0 && IsPowerOfTwo(p / 2))
  }

  /** The least power of two above m. */
  function PowerAbove(m: nat): (p: nat)
    ensures m < p && IsPowerOfTwo(p) && (m > 0 ==> p <= 2 * m)
  {
    if m == 0 then 1 else 2 * PowerAbove(m / 2)
  }

  /** A byte that names a constant is its code; every other byte is rejected. */
  lemma CodesAreExact(c: byte)
    ensures TagOfCode(c) == Err(ValueError) || (TagOfCode(c).Ok? && TagOfCode(c).value.Code() == c)
    ensures TypeTagOfCode(c) == Err(ValueError) || (TypeTagOfCode(c).Ok? && TypeTagOfCode(c).value.Code() == c)
    ensures SuspendPolicyOfCode(c) == Err(ValueError)
            || (SuspendPolicyOfCode(c).Ok? && SuspendPolicyOfCode(c).value.Code() == c)
    ensures EventKindOfCode(c) == Err(ValueError) || (EventKindOfCode(c).Ok? && EventKindOfCode(c).value.Code() == c)
  {
  }

  const TAGS: seq<JdwpTag> :=
    [ARRAY, BYTE, CHAR, OBJECT, FLOAT, DOUBLE, INT, LONG, SHORT, VOID, BOOLEAN, STRING, THREAD, THREAD_GROUP,
     CLASS_LOADER, CLASS_OBJECT]

  /** The tags are the letters of JNI type signatures and of their JDWP extensions. */
  lemma TagsAreLetters()
    ensures |TAGS| == |"[BCLFDIJSVZstglc"|
    ensures forall i | 0 <= i < |TAGS| :: TAGS[i].Code() == "[BCLFDIJSVZstglc"[i] as int
  {
  }

  /** The event kinds in the order of their numbers, as the protocol's table of constants gives them. */
  const EVENT_KINDS: seq<JdwpEventKind> :=
    [SINGLE_STEP, BREAKPOINT, FRAME_POP, EXCEPTION, USER_DEFINED, THREAD_START, THREAD_DEATH, CLASS_PREPARE,
     CLASS_UNLOAD, CLASS_LOAD, FIELD_ACCESS, FIELD_MODIFICATION, EXCEPTION_CATCH, METHOD_ENTRY, METHOD_EXIT,
     METHOD_EXIT_WITH_RETURN_VALUE, MONITOR_CONTENDED_ENTER, MONITOR_CONTENDED_ENTERED, MONITOR_WAIT,
     MONITOR_WAITED, VM_START, VM_DEATH]

  const EVENT_NUMBERS: seq<int> :=
    [1, 2, 3, 4, 5, 6, 7, 8, 9, 10, 20, 21, 30, 40, 41, 42, 43, 44, 45, 46, 90, 99]

  lemma KindsAreNumbered()
    ensures |EVENT_KINDS| == |EVENT_NUMBERS|
    ensures forall i | 0 <= i < |EVENT_KINDS| :: EVENT_KINDS[i].Code() == EVENT_NUMBERS[i]
    ensures [SUSPEND_NONE.Code(), SUSPEND_EVENT_THREAD.Code(), SUSPEND_ALL.Code()] == [0, 1, 2]
    ensures [CLASS.Code(), INTERFACE.Code(), ARRAY_TYPE.Code()] == [1, 2, 3]
  {
  }
}
