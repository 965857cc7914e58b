/** JDWP packets and their framing (packet.py). */
module Packet {
  import opened Results
  import opened Bytes

  datatype JdwpPacket =
    | CommandPacket(id: nat, flags: int, data: bytes, commandSet: int, command: int)
    | ReplyPacket(id: nat, flags: int, data: bytes, errorCode: int)
  {
    /** The flags and the class agree, as every constructed packet's do. */
    predicate FlagsAgree() {
      ReplyFlag(flags) == ReplyPacket?
    }

    /** Every header field fits its wire width. */
    predicate InRange() {
      && FitsUnsigned(4, 11 + |data|)
      && FitsUnsigned(4, id)
      && FitsUnsigned(1, flags)
      && match this
         case CommandPacket(_, _, _, s, c) => FitsUnsigned(1, s) && FitsUnsigned(1, c)
         case ReplyPacket(_, _, _, e) => FitsUnsigned(2, e)
    }

    predicate Sendable() {
      FlagsAgree() && InRange()
    }
  }

  /** flags & 0x80 */
  predicate ReplyFlag(flags: int) {
    flags / 128 % 2 == 1
  }

  /** The dataclass constructors: __post_init__ rejects flags that contradict the class. */
  function NewPacket(p: JdwpPacket): (r: Result<JdwpPacket>)
    ensures r.Ok? ==> r.value == p && p.FlagsAgree()
    ensures r.Err? ==> !p.FlagsAgree()
  {
    if p.FlagsAgree() then Ok(p) else Err(ValueError)
  }

  /** The last two header bytes: command set and command, or the error code. */
  function EncodeSelector(p: JdwpPacket): (s: bytes)
    ensures |s| == 2
  {
    match p
    case CommandPacket(_, _, _, s, c) => BigEndian(1, s) + BigEndian(1, c)
    case ReplyPacket(_, _, _, e) => BigEndian(2, e)
  }

  function EncodePacket(p: JdwpPacket): (s: bytes)
    ensures |s| == 11 + |p.data|
  {
    BigEndian(4, 11 + |p.data|) + BigEndian(4, p.id) + BigEndian(1, p.flags) + EncodeSelector(p) + p.data
  }

  /** to_bytes: struct.pack raises when a field does not fit. */
  function ToBytes(p: JdwpPacket): (r: Result<bytes>)
    ensures r.Ok? <==> p.InRange()
  {
    if p.InRange() then Ok(EncodePacket(p)) else Err(StructError)
  }

  /** from_bytes on a header of 11 bytes and a payload. */
  function FromBytes(header: bytes, data: bytes): (p: JdwpPacket)
    requires |header| == 11
    ensures p.FlagsAgree()
  {
    var id, flags := Unsigned(header[4..8]), header[8];
    if ReplyFlag(flags) then
      ReplyPacket(id, flags, data, Unsigned(header[9..11]))
    else
      CommandPacket(id, flags, data, header[9], header[10])
  }

  /** What JdwpPacket.deserialize makes of the front of a stream: a packet and its frame's length. */
  function ParseFrame(s: bytes): (r: Result<(JdwpPacket, nat)>)
    ensures r.Ok? ==> 11 <= r.value.1 <= |s|
  {
    if |s| < 11 then Err(IncompleteRead)
    else
      var length := Unsigned(s[..4]);
      if length < 11 then Err(ValueError)
      else if |s| < length then Err(IncompleteRead)
      else Ok((FromBytes(s[..11], s[11..length]), length))
  }

  // ----- framing is a bijection -----

  lemma HeaderParts(p: JdwpPacket)
    ensures var s := EncodePacket(p);
            && s[..4] == BigEndian(4, 11 + |p.data|)
            && s[4..8] == BigEndian(4, p.id)
            && s[8..9] == BigEndian(1, p.flags)
            && s[9..11] == EncodeSelector(p)
            && s[11..] == p.data
  {
    hide BigEndian;
  }

  lemma OneByte(v: byte)
    ensures BigEndian(1, v) == [v]
  {
    assert BigEndian(0, v / 256) == [];
  }

  /** A packet in range is read back from its own bytes, whatever follows them. */
  lemma ParseOfEncode(p: JdwpPacket, tail: bytes)
    requires p.Sendable()
    ensures ParseFrame(EncodePacket(p) + tail) == Ok((p, |EncodePacket(p)|))
  {
    var s := EncodePacket(p);
    HeaderParts(p);
    UnsignedOfBigEndian(4, 11 + |p.data|);
    UnsignedOfBigEndian(4, p.id);
    OneByte(p.flags);
    assert (s + tail)[..4] == s[..4] && (s + tail)[..11] == s[..11] && (s + tail)[11..|s|] == s[11..];
    assert s[..11][4..8] == s[4..8] && s[..11][9..11] == s[9..11];
    assert s[8] == s[8..9][0];
    match p {
      case CommandPacket(_, _, _, t, c) =>
        OneByte(t);
        OneByte(c);
        assert s[9] == s[9..11][0] && s[10] == s[9..11][1];
      case ReplyPacket(_, _, _, e) =>
        UnsignedOfBigEndian(2, e);
    }
  }

  /** What a complete frame parses to is in range and encodes to that very frame. */
  lemma EncodeOfParse(s: bytes)
    requires ParseFrame(s).Ok?
    ensures var (p, n) := ParseFrame(s).value;
            p.Sendable() && EncodePacket(p) == s[..n]
  {
    var length := Unsigned(s[..4]);
    BigEndianOfUnsigned(s[..4]);
    FromBytesSendable(s[..11], s[11..length]);
    EncodeOfFromBytes(s[..11], s[11..length]);
    assert s[..11][..4] == s[..4];
    assert s[..11] + s[11..length] == s[..length];
  }

  lemma SelectorOfFromBytes(header: bytes, data: bytes)
    requires |header| == 11
    ensures EncodeSelector(FromBytes(header, data)) == header[9..11]
  {
    hide BigEndian, Unsigned;
    BigEndianOfUnsigned(header[9..11]);
    OneByte(header[9]);
    OneByte(header[10]);
  }

  lemma FromBytesSendable(header: bytes, data: bytes)
    requires |header| == 11 && FitsUnsigned(4, 11 + |data|)
    ensures FromBytes(header, data).Sendable()
  {
  }

  lemma EncodeOfFromBytes(header: bytes, data: bytes)
    requires |header| == 11 && header[..4] == BigEndian(4, 11 + |data|)
    ensures EncodePacket(FromBytes(header, data)) == header + data
  {
    hide EncodeSelector, BigEndian, Unsigned;
    SelectorOfFromBytes(header, data);
    BigEndianOfUnsigned(header[4..8]);
    OneByte(header[8]);
    assert header[..4] + header[4..8] == header[..8];
    assert header[..8] + [header[8]] == header[..9];
    assert header[..9] + header[9..11] == header;
  }

  // ----- streams of packets -----

  function EncodePackets(ps: seq<JdwpPacket>): bytes {
    if ps == [] then [] else EncodePacket(ps[0]) + EncodePackets(ps[1..])
  }

  /** Repeated deserialize until it raises: the packets, and the bytes that were left. */
  function ParseFrames(s: bytes): (r: (seq<JdwpPacket>, bytes))
    decreases |s|
  {
    match ParseFrame(s)
    case Ok((p, n)) =>
      var (ps, rest) := ParseFrames(s[n..]);
      ([p] + ps, rest)
    case Err(_) => ([], s)
  }

  /** Any concatenation of packets in range parses to exactly those packets, in order. */
  lemma {:induction false} ParseOfEncodeAll(ps: seq<JdwpPacket>)
    requires forall p | p in ps :: p.Sendable()
    ensures ParseFrames(EncodePackets(ps)) == (ps, [])
  {
    if ps != [] {
      ParseOfEncode(ps[0], EncodePackets(ps[1..]));
      ParseOfEncodeAll(ps[1..]);
      var s := EncodePackets(ps);
      assert s[|EncodePacket(ps[0])|..] == EncodePackets(ps[1..]);
      assert [ps[0]] + ps[1..] == ps;
    }
  }

  /** Any stream is its complete frames, re-encoded, followed by what does not parse. */
  lemma {:induction false} EncodeOfParseAll(s: bytes)
    ensures var (ps, rest) := ParseFrames(s);
            && EncodePackets(ps) + rest == s
            && ParseFrame(rest).Err?
            && 11 * |ps| <= |s|
            && forall p | p in ps :: p.Sendable()
    decreases |s|
  {
    match ParseFrame(s) {
      case Err(_) =>
      case Ok((p, n)) =>
        EncodeOfParse(s);
        EncodeOfParseAll(s[n..]);
        var (ps, rest) := ParseFrames(s[n..]);
        assert ([p] + ps)[1..] == ps;
        assert EncodePacket(p) + (EncodePackets(ps) + rest) == s;
    }
  }

  /** The bytes a peer sends before it closes the connection, and how much of them was consumed. */
  class StreamReader {
    const data: bytes
    var position: nat

    ghost predicate Valid()
      reads this
    {
      position <= |data|
    }

    constructor (data: bytes)
      ensures Valid() && this.data == data && position == 0
    {
      this.data := data;
      this.position := 0;
    }

    /** asyncio's readexactly: on a short stream the partial bytes are consumed and lost. */
    method ReadExactly(n: nat) returns (r: Result<bytes>)
      requires Valid()
      modifies this
      ensures Valid()
      ensures old(position) + n <= |data| ==>
                position == old(position) + n && r == Ok(data[old(position)..position])
      ensures old(position) + n > |data| ==> position == |data| && r == Err(IncompleteRead)
    {
      if position + n > |data| {
        position := |data|;
        return Err(IncompleteRead);
      }
      position := position + n;
      return Ok(data[position - n..position]);
    }

    /** JdwpPacket.deserialize. */
    method Deserialize() returns (r: Result<JdwpPacket>)
      requires Valid()
      modifies this
      ensures Valid()
      ensures match ParseFrame(data[old(position)..])
              case Ok((p, n)) => r == Ok(p) && position == old(position) + n
              case Err(e) => r == Err(e) && old(position) <= position
    {
      ghost var front := data[position..];
      var header :- ReadExactly(11);
      assert header == front[..11];
      var length := Unsigned(header[..4]);
      assert header[..4] == front[..4];
      if length < 11 {
        return Err(ValueError);
      }
      var payload :- ReadExactly(length - 11);
      assert payload == front[11..length];
      r := NewPacket(FromBytes(header, payload));
    }
  }
}
