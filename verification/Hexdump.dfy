/** The hex dump of packet payloads that the proxy logs (proxy.py, format_hexdump). */
module Hexdump {
  import opened Bytes

  function HexDigit(n: nat): (c: char)
    requires n < 16
    ensures DigitValue(c) == n && c != '\n' && c != ' '
  {
    if n < 10 then '0' + n as char else 'A' + (n - 10) as char
  }

  function DigitValue(c: char): nat {
    if '0' <= c <= '9' then c as nat - '0' as nat
    else if 'A' <= c <= 'F' then c as nat - 'A' as nat + 10
    else 0
  }

  /** A byte in format 02X. */
  function HexByte(b: byte): string {
    [HexDigit(b / 16), HexDigit(b % 16)]
  }

  /** A number in format X. */
  function HexNumber(n: nat): string {
    if n < 16 then [HexDigit(n)] else HexNumber(n / 16) + [HexDigit(n % 16)]
  }

  function Repeat(c: char, n: int): string {
    seq(if n < 0 then 0 else n, _ => c)
  }

  /** A number in format 04X. */
  function HexOffset(n: nat): string {
    Repeat('0', 4 - |HexNumber(n)|) + HexNumber(n)
  }

  /** sep.join(parts). */
  function Join(sep: string, parts: seq<string>): string {
    if parts == [] then ""
    else if |parts| == 1 then parts[0]
    else Join(sep, parts[..|parts| - 1]) + sep + parts[|parts| - 1]
  }

  function HexBytes(chunk: bytes): seq<string> {
    seq(|chunk|, i requires 0 <= i < |chunk| => HexByte(chunk[i]))
  }

  /** The hex part of a line: the bytes, a wider gap after the eighth, padded to 49 characters. */
  function HexField(chunk: bytes): string {
    var joined := Join(" ", HexBytes(chunk));
    var grouped := if |chunk| > 8 && |joined| >= 23 then joined[..23] + "  " + joined[23..] else joined;
    grouped + Repeat(' ', 49 - |grouped|)
  }

  function AsciiField(chunk: bytes): string {
    seq(|chunk|, i requires 0 <= i < |chunk| => if 32 <= chunk[i] < 127 then chunk[i] as char else '.')
  }

  /** The slice data[i : i + 16]. */
  function Chunk(data: bytes, i: nat): bytes
    requires i <= |data|
  {
    data[i..if i + 16 < |data| then i + 16 else |data|]
  }

  function Line(data: bytes, prefix: string, i: nat): string
    requires i <= |data|
  {
    prefix + HexOffset(i) + "  " + HexField(Chunk(data, i)) + "  |" + AsciiField(Chunk(data, i)) + "|"
  }

  /** One line for every started group of 16 bytes. */
  function Lines(data: bytes, prefix: string): (lines: seq<string>)
    ensures |lines| == (|data| + 15) / 16
  {
    seq((|data| + 15) / 16, k requires 0 <= k < (|data| + 15) / 16 => Line(data, prefix, 16 * k))
  }

  // ----- reading a dump back -----

  /** Where byte j of a line stands in the hex field. */
  function Column(j: nat): nat {
    3 * j + if j >= 8 then 2 else 0
  }

  /** The bytes from column j on, up to the first blank column. */
  function ReadColumns(field: string, j: nat): bytes
    requires |field| == 49 && j <= 16
    decreases 16 - j
  {
    if j == 16 || field[Column(j)] == ' ' then []
    else
      [(DigitValue(field[Column(j)]) * 16 + DigitValue(field[Column(j) + 1])) % 256] + ReadColumns(field, j + 1)
  }

  /** The bytes of a line whose hex field starts at the given column. */
  function ReadLine(line: string, start: nat): bytes {
    if start + 49 <= |line| then ReadColumns(line[start..start + 49], 0) else []
  }

  function ReadLines(lines: seq<string>, prefixLength: nat): bytes {
    if lines == [] then []
    else
      var k := |lines| - 1;
      ReadLines(lines[..k], prefixLength) + ReadLine(lines[k], prefixLength + |HexOffset(16 * k)| + 2)
  }

  function SplitLines(text: string): (lines: seq<string>)
    ensures lines != []
  {
    if text == "" then [""]
    else
      var n := |text| - 1;
      var init := SplitLines(text[..n]);
      if text[n] == '\n' then init + [""]
      else init[..|init| - 1] + [init[|init| - 1] + [text[n]]]
  }

  function ReadDump(text: string, prefixLength: nat): bytes {
    if text == "" then [] else ReadLines(SplitLines(text), prefixLength)
  }

  function HexValue(s: string): nat {
    if s == "" then 0 else HexValue(s[..|s| - 1]) * 16 + DigitValue(s[|s| - 1])
  }

  // ----- the hex field -----

  lemma {:induction false} JoinedBytes(chunk: bytes)
    requires chunk != []
    ensures |Join(" ", HexBytes(chunk))| == 3 * |chunk| - 1
    ensures forall j :: 0 <= j < |chunk| ==>
              && Join(" ", HexBytes(chunk))[3 * j] == HexDigit(chunk[j] / 16)
              && Join(" ", HexBytes(chunk))[3 * j + 1] == HexDigit(chunk[j] % 16)
    ensures forall j :: 0 <= j < |chunk| - 1 ==> Join(" ", HexBytes(chunk))[3 * j + 2] == ' '
    ensures '\n' !in Join(" ", HexBytes(chunk))
  {
    if |chunk| > 1 {
      var k := |chunk| - 1;
      assert HexBytes(chunk)[..k] == HexBytes(chunk[..k]);
      JoinedBytes(chunk[..k]);
    }
  }

  /** The field is always 49 wide, and byte j stands at its column; a column without a byte is blank. */
  lemma FieldLayout(chunk: bytes)
    requires |chunk| <= 16
    ensures |HexField(chunk)| == 49
    ensures forall j :: 0 <= j < |chunk| ==>
              HexField(chunk)[Column(j)..Column(j) + 2] == HexByte(chunk[j])
    ensures forall j :: |chunk| <= j < 16 ==> HexField(chunk)[Column(j)] == ' '
  {
    if chunk != [] {
      JoinedBytes(chunk);
    }
  }

  lemma ColumnHoldsByte(chunk: bytes, j: nat)
    requires j < |chunk| <= 16
    ensures |HexField(chunk)| == 49 && HexField(chunk)[Column(j)] != ' '
    ensures DigitValue(HexField(chunk)[Column(j)]) * 16 + DigitValue(HexField(chunk)[Column(j) + 1]) == chunk[j]
  {
    hide HexField;
    FieldLayout(chunk);
    var pair := HexField(chunk)[Column(j)..Column(j) + 2];
    assert pair == HexByte(chunk[j]);
    assert HexField(chunk)[Column(j)] == pair[0] && HexField(chunk)[Column(j) + 1] == pair[1];
  }

  lemma {:induction false} ColumnsReadBack(chunk: bytes, j: nat)
    requires |chunk| <= 16 && j <= |chunk|
    ensures |HexField(chunk)| == 49 && ReadColumns(HexField(chunk), j) == chunk[j..]
    decreases |chunk| - j
  {
    hide HexField, DigitValue, HexByte;
    FieldLayout(chunk);
    if j < |chunk| {
      ColumnHoldsByte(chunk, j);
      ColumnsReadBack(chunk, j + 1);
      assert chunk[j..] == [chunk[j]] + chunk[j + 1..];
    }
  }

  // ----- the offset -----

  lemma {:induction false} HexNumberReadsBack(n: nat)
    ensures HexValue(HexNumber(n)) == n && HexNumber(n) != "" && '\n' !in HexNumber(n)
  {
    if n >= 16 {
      HexNumberReadsBack(n / 16);
      assert HexNumber(n)[..|HexNumber(n)| - 1] == HexNumber(n / 16);
    }
  }

  lemma {:induction false} LeadingZeros(k: nat, s: string)
    ensures HexValue(Repeat('0', k) + s) == HexValue(s)
    decreases k + |s|
  {
    var t := Repeat('0', k) + s;
    if s != "" {
      assert t[..|t| - 1] == Repeat('0', k) + s[..|s| - 1];
      LeadingZeros(k, s[..|s| - 1]);
    } else if k > 0 {
      assert t[..|t| - 1] == Repeat('0', k - 1) + "";
      LeadingZeros(k - 1, "");
    }
  }

  /** The offset column names the offset, in at least four digits. */
  lemma OffsetReadsBack(n: nat)
    ensures HexValue(HexOffset(n)) == n && |HexOffset(n)| >= 4 && '\n' !in HexOffset(n)
  {
    HexNumberReadsBack(n);
    if |HexNumber(n)| <= 4 {
      LeadingZeros(4 - |HexNumber(n)|, HexNumber(n));
    } else {
      assert Repeat('0', 4 - |HexNumber(n)|) == "";
      assert HexOffset(n) == HexNumber(n);
    }
  }

  // ----- lines and text -----

  lemma {:induction false} SplitAfterNewline(s: string, t: string)
    requires '\n' !in t
    ensures SplitLines(s + "\n" + t) == SplitLines(s) + [t]
    decreases |t|
  {
    var text := s + "\n" + t;
    if t == "" {
      assert text[..|text| - 1] == s;
    } else {
      assert text[..|text| - 1] == s + "\n" + t[..|t| - 1];
      SplitAfterNewline(s, t[..|t| - 1]);
      assert t == t[..|t| - 1] + [t[|t| - 1]];
    }
  }

  lemma {:induction false} SplitSingle(t: string)
    requires '\n' !in t
    ensures SplitLines(t) == [t]
  {
    if t != "" {
      SplitSingle(t[..|t| - 1]);
      assert t == t[..|t| - 1] + [t[|t| - 1]];
    }
  }

  lemma {:induction false} SplitOfJoin(lines: seq<string>)
    requires lines != [] && forall k :: 0 <= k < |lines| ==> '\n' !in lines[k]
    ensures SplitLines(Join("\n", lines)) == lines
  {
    hide SplitLines;
    var k := |lines| - 1;
    if k == 0 {
      SplitSingle(lines[0]);
    } else {
      SplitOfJoin(lines[..k]);
      SplitAfterNewline(Join("\n", lines[..k]), lines[k]);
    }
  }

  lemma JoinNonempty(lines: seq<string>)
    requires lines != [] && forall k :: 0 <= k < |lines| ==> lines[k] != ""
    ensures Join("\n", lines) != ""
  {
  }

  lemma {:induction false} FieldsHaveNoNewline(chunk: bytes)
    requires |chunk| <= 16
    ensures '\n' !in HexField(chunk) && '\n' !in AsciiField(chunk)
  {
    if chunk != [] {
      JoinedBytes(chunk);
    }
  }

  /** Where the hex field stands in a line, and that a line is one line. */
  lemma LineLayout(data: bytes, prefix: string, i: nat)
    requires i <= |data|
    ensures ReadLine(Line(data, prefix, i), |prefix| + |HexOffset(i)| + 2) == Chunk(data, i)
    ensures '\n' !in prefix ==> '\n' !in Line(data, prefix, i)
    ensures Line(data, prefix, i) != ""
  {
    hide HexField, AsciiField, HexOffset, HexNumber, HexValue, ReadColumns, DigitValue;
    var chunk := Chunk(data, i);
    var start := |prefix| + |HexOffset(i)| + 2;
    ColumnsReadBack(chunk, 0);
    assert Line(data, prefix, i)[start..start + 49] == HexField(chunk);
    OffsetReadsBack(i);
    FieldsHaveNoNewline(chunk);
  }

  /** What else a line shows: the prefix, the offset as a number, and between bars each printable byte. */
  lemma LineText(data: bytes, prefix: string, i: nat)
    requires i <= |data|
    ensures var line := Line(data, prefix, i);
            var chunk := Chunk(data, i);
            var digits := |HexOffset(i)|;
            && |line| == |prefix| + digits + 2 + 49 + 3 + |chunk| + 1
            && line[..|prefix|] == prefix
            && HexValue(line[|prefix|..|prefix| + digits]) == i && digits >= 4
            && line[|prefix| + digits..|prefix| + digits + 2] == "  "
            && line[|line| - |chunk| - 4..|line| - |chunk| - 1] == "  |" && line[|line| - 1] == '|'
            && forall j | 0 <= j < |chunk| ::
                 line[|line| - |chunk| - 1 + j] == if 32 <= chunk[j] < 127 then chunk[j] as char else '.'
  {
    hide HexField, HexOffset, HexNumber, HexValue, ReadColumns, DigitValue;
    var line := Line(data, prefix, i);
    OffsetReadsBack(i);
    FieldLayout(Chunk(data, i));
    assert line[|prefix|..|prefix| + |HexOffset(i)|] == HexOffset(i);
  }

  /** Line k of a dump is about the data from 16k on, and no line is missing or added. */
  lemma LinesCoverData(data: bytes, prefix: string, k: nat)
    requires k < |Lines(data, prefix)|
    ensures 16 * k < |data| && Lines(data, prefix)[k] == Line(data, prefix, 16 * k)
    ensures |data| <= 16 * |Lines(data, prefix)| < |data| + 16
  {
    hide Line;
  }

  lemma {:induction false} LinesReadBack(data: bytes, prefix: string, k: nat)
    requires k <= |Lines(data, prefix)|
    ensures ReadLines(Lines(data, prefix)[..k], |prefix|) == data[..if 16 * k < |data| then 16 * k else |data|]
  {
    hide ReadLine, Line, HexOffset;
    var lines := Lines(data, prefix);
    if k > 0 {
      LinesReadBack(data, prefix, k - 1);
      assert lines[..k][..k - 1] == lines[..k - 1];
      LineLayout(data, prefix, 16 * (k - 1));
    }
  }

  /** Reading the hex columns of a dump back recovers the data, under any prefix of one line. */
  lemma DumpIsLossless(data: bytes, prefix: string)
    requires '\n' !in prefix
    ensures ReadDump(Join("\n", Lines(data, prefix)), |prefix|) == data
  {
    hide ReadLine, Line, HexOffset;
    var lines := Lines(data, prefix);
    if data != [] {
      forall k | 0 <= k < |lines| ensures '\n' !in lines[k] && lines[k] != "" {
        LineLayout(data, prefix, 16 * k);
      }
      SplitOfJoin(lines);
      JoinNonempty(lines);
      LinesReadBack(data, prefix, |lines|);
      assert lines[..|lines|] == lines;
    }
  }

  method FormatHexdump(data: bytes, prefix: string) returns (text: string)
    ensures text == Join("\n", Lines(data, prefix))
    ensures '\n' !in prefix ==> ReadDump(text, |prefix|) == data
  {
    hide HexOffset, HexField, AsciiField, Join, ReadDump;
    var lines: seq<string> := [];
    var i := 0;
    while i < |data|
      invariant i == 16 * |lines| && i < |data| + 16
      invariant lines == Lines(data, prefix)[..|lines|]
    {
      var chunk := data[i..if i + 16 < |data| then i + 16 else |data|];
      var hexPart := HexField(chunk);
      var asciiPart := AsciiField(chunk);
      lines := lines + [prefix + HexOffset(i) + "  " + hexPart + "  |" + asciiPart + "|"];
      i := i + 16;
    }
    assert lines == Lines(data, prefix);
    if '\n' !in prefix {
      DumpIsLossless(data, prefix);
    }
    return Join("\n", lines);
  }
}
