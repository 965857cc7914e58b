/** Which byte sequences are the encoding of a str. */
module Utf8 {
  import opened Bytes

  /** Well-formed UTF-8 (Unicode Standard, Table 3-7), which bytes.decode("utf-8") accepts. */
  predicate IsUtf8(s: bytes) {
    s == [] || var n := Utf8Length(s); 0 < n <= |s| && IsUtf8(s[n..])
  }

  /** Length of the well-formed character at the front of s, or 0. */
  function Utf8Length(s: bytes): (n: nat)
    requires s != []
    ensures n <= |s|
  {
    var b := s[0];
    if b < 0x80 then 1
    else if |s| < 2 then 0
    else if 0xC2 <= b <= 0xDF && IsTrail(s[1]) then 2
    else if |s| < 3 || !IsTrail(s[2]) then 0
    else if b == 0xE0 && 0xA0 <= s[1] <= 0xBF then 3
    else if b == 0xED && 0x80 <= s[1] <= 0x9F then 3
    else if (0xE1 <= b <= 0xEC || 0xEE <= b <= 0xEF) && IsTrail(s[1]) then 3
    else if |s| < 4 || !IsTrail(s[3]) then 0
    else if b == 0xF0 && 0x90 <= s[1] <= 0xBF then 4
    else if 0xF1 <= b <= 0xF3 && IsTrail(s[1]) then 4
    else if b == 0xF4 && 0x80 <= s[1] <= 0x8F then 4
    else 0
  }

  predicate IsTrail(b: byte) {
    0x80 <= b <= 0xBF
  }

  /** A Unicode scalar value: a code point that is no surrogate, which str.encode accepts. */
  predicate IsScalar(c: nat) {
    c < 0xD800 || 0xE000 <= c < 0x11_0000
  }

  /** The encoding of one scalar value (RFC 3629, section 3). */
  function EncodeScalar(c: nat): (s: bytes)
    requires IsScalar(c)
    ensures s != []
  {
    if c < 0x80 then [c]
    else if c < 0x800 then [0xC0 + c / 64, 0x80 + c % 64]
    else if c < 0x1_0000 then [0xE0 + c / 4096, 0x80 + c / 64 % 64, 0x80 + c % 64]
    else [0xF0 + c / 262144, 0x80 + c / 4096 % 64, 0x80 + c / 64 % 64, 0x80 + c % 64]
  }

  ghost predicate AllScalars(text: seq<nat>) {
    forall i | 0 <= i < |text| :: IsScalar(text[i])
  }

  function EncodeText(text: seq<nat>): bytes
    requires AllScalars(text)
  {
    if text == [] then [] else EncodeScalar(text[0]) + EncodeText(text[1..])
  }

  /** The scalar value that a well-formed character encodes. */
  function ScalarOf(s: bytes): int
    requires s != [] && Utf8Length(s) > 0
  {
    var lead: int := s[0];
    match Utf8Length(s)
    case 1 => lead
    case 2 => (lead - 0xC0) * 64 + Trail(s, 1)
    case 3 => (lead - 0xE0) * 4096 + Trail(s, 1) * 64 + Trail(s, 2)
    case _ => (lead - 0xF0) * 262144 + Trail(s, 1) * 4096 + Trail(s, 2) * 64 + Trail(s, 3)
  }

  /** The six bits of a trailing byte. */
  function Trail(s: bytes, i: nat): (t: int)
    requires i < |s|
  {
    var b: int := s[i];
    b - 0x80
  }

  lemma ScalarIsRead(c: nat, rest: bytes)
    requires IsScalar(c)
    ensures Utf8Length(EncodeScalar(c) + rest) == |EncodeScalar(c)|
  {
    var s := EncodeScalar(c) + rest;
    assert s[..|EncodeScalar(c)|] == EncodeScalar(c);
    assert forall i | 0 <= i < |EncodeScalar(c)| :: s[i] == EncodeScalar(c)[i];
  }

  /** The base-64 digits of a number, from the right. */
  lemma Sextets(hi: int, a: int, b: int, c: int)
    requires 0 <= a < 64 && 0 <= b < 64 && 0 <= c < 64
    ensures var v := hi * 262144 + a * 4096 + b * 64 + c;
            v / 262144 == hi && v / 4096 % 64 == a && v / 64 % 64 == b && v % 64 == c
  {
    var v := hi * 262144 + a * 4096 + b * 64 + c;
    assert v / 4096 == hi * 64 + a;
    assert v / 64 == (hi * 64 + a) * 64 + b;
  }

  lemma ReadIsScalar(s: bytes)
    requires s != [] && Utf8Length(s) > 0
    ensures 0 <= ScalarOf(s) && IsScalar(ScalarOf(s)) && EncodeScalar(ScalarOf(s)) == s[..Utf8Length(s)]
  {
    var n := Utf8Length(s);
    var lead: int := s[0];
    if n == 2 {
      Sextets(0, 0, lead - 0xC0, Trail(s, 1));
    } else if n == 3 {
      Sextets(0, lead - 0xE0, Trail(s, 1), Trail(s, 2));
    } else if n == 4 {
      Sextets(lead - 0xF0, Trail(s, 1), Trail(s, 2), Trail(s, 3));
    }
    assert |EncodeScalar(ScalarOf(s))| == n;
  }

  lemma {:induction false} TextIsUtf8(text: seq<nat>)
    requires AllScalars(text)
    ensures IsUtf8(EncodeText(text))
  {
    if text != [] {
      ScalarIsRead(text[0], EncodeText(text[1..]));
      TextIsUtf8(text[1..]);
      assert (EncodeScalar(text[0]) + EncodeText(text[1..]))[|EncodeScalar(text[0])|..] == EncodeText(text[1..]);
    }
  }

  /** The text that well-formed bytes encode. */
  function TextOf(s: bytes): seq<nat>
    requires IsUtf8(s)
  {
    if s == [] then [] else ReadIsScalar(s); [ScalarOf(s)] + TextOf(s[Utf8Length(s)..])
  }

  lemma {:induction false} TextOfEncodes(s: bytes)
    requires IsUtf8(s)
    ensures AllScalars(TextOf(s)) && EncodeText(TextOf(s)) == s
  {
    if s != [] {
      ReadIsScalar(s);
      TextOfEncodes(s[Utf8Length(s)..]);
      assert TextOf(s)[1..] == TextOf(s[Utf8Length(s)..]);
    }
  }

  /** Bytes pass for a string exactly when they encode some sequence of scalar values. */
  lemma Utf8Condition(s: bytes)
    ensures IsUtf8(s) <==> exists text :: AllScalars(text) && EncodeText(text) == s
  {
    if IsUtf8(s) {
      TextOfEncodes(s);
    }
    forall text | AllScalars(text) && EncodeText(text) == s
      ensures IsUtf8(s)
    {
      TextIsUtf8(text);
    }
  }
}
