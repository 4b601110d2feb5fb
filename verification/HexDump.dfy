/** The hex dump of the samples: offset, two groups of eight bytes, and the printable characters of each line. */
module HexDump {
  import opened Bytes

  const LINE: nat := 77
  const NUL: char := '\0'

  type Text = seq<char>

  // ---------------------------------------------------------------- what a dump is

  function Digit(d: nat): char
    requires d < 16
  {
    "0123456789ABCDEF"[d]
  }

  function Width(v: nat): (n: nat)
    ensures n > 0
  {
    if v < 16 then 1 else 1 + Width(v / 16)
  }

  function Hex(v: nat, width: nat): (t: Text)
    ensures |t| == width
  {
    if width == 0 then [] else Hex(v / 16, width - 1) + [Digit(v % 16)]
  }

  /** "%08zX: ": at least eight digits. */
  function OffsetText(v: nat): (t: Text)
    ensures |t| >= 10
  {
    Hex(v, if Width(v) < 8 then 8 else Width(v)) + ": "
  }

  /** The ten columns that the offset keeps, whatever its length. */
  function OffsetField(v: nat): (t: Text)
    ensures |t| == 10
  {
    OffsetText(v)[..10]
  }

  function Cell(data: seq<Byte>, k: nat): (t: Text)
    ensures |t| == 3
  {
    if k < |data| then [Digit(data[k] / 16), Digit(data[k] % 16), ' '] else "   "
  }

  function Printable(data: seq<Byte>, k: nat): char {
    if k >= |data| then ' '
    else if ' ' as int <= data[k] <= '~' as int then data[k] as char
    else '.'
  }

  function Cells(data: seq<Byte>, from: nat, n: nat): (t: Text)
    ensures |t| == 3 * n
  {
    if n == 0 then [] else Cells(data, from, n - 1) + Cell(data, from + n - 1)
  }

  function Ascii(data: seq<Byte>, from: nat, n: nat): (t: Text)
    ensures |t| == n
  {
    if n == 0 then [] else Ascii(data, from, n - 1) + [Printable(data, from + n - 1)]
  }

  /** The two groups of cells of a line, each followed by a space. */
  function Groups(data: seq<Byte>, from: nat): (t: Text)
    ensures |t| == 50
  {
    Cells(data, from, 8) + " " + Cells(data, from + 8, 8) + " "
  }

  function Line(data: seq<Byte>, i: nat): (t: Text)
    ensures |t| == LINE
  {
    OffsetField(16 * i) + Groups(data, 16 * i) + Ascii(data, 16 * i, 16) + "\n"
  }

  function Lines(data: seq<Byte>, n: nat): (t: Text)
    ensures |t| == LINE * n
  {
    if n == 0 then [] else Lines(data, n - 1) + Line(data, n - 1)
  }

  function LineCount(size: nat): nat {
    (size + 15) / 16
  }

  /** The dump: all lines, without the last newline. */
  function Dump(data: seq<Byte>): (t: Text)
    requires data != []
    ensures |t| == LINE * LineCount(|data|) - 1
  {
    var n := LineCount(|data|);
    Lines(data, n)[..LINE * n - 1]
  }

  // ---------------------------------------------------------------- a dump can be read back

  lemma {:induction false} CellInCells(data: seq<Byte>, from: nat, n: nat, j: nat)
    requires j < n
    ensures Cells(data, from, n)[3 * j..3 * j + 3] == Cell(data, from + j)
  {
    hide Cell;
    if j + 1 < n {
      CellInCells(data, from, n - 1, j);
      assert Cells(data, from, n)[3 * j..3 * j + 3] == Cells(data, from, n - 1)[3 * j..3 * j + 3];
    }
  }

  lemma {:induction false} LineInLines(data: seq<Byte>, n: nat, i: nat)
    requires i < n
    ensures Lines(data, n)[LINE * i..LINE * i + LINE] == Line(data, i)
  {
    hide Line;
    if i + 1 < n {
      LineInLines(data, n - 1, i);
      assert Lines(data, n)[LINE * i..LINE * i + LINE] == Lines(data, n - 1)[LINE * i..LINE * i + LINE];
    }
  }

  /** The column of the `j`th cell of a line. */
  function Column(j: nat): nat {
    if j < 8 then 10 + 3 * j else 35 + 3 * (j - 8)
  }

  lemma GroupsAre(data: seq<Byte>, from: nat)
    ensures Groups(data, from)[0..24] == Cells(data, from, 8) && Groups(data, from)[25..49] == Cells(data, from + 8, 8)
  {
    hide Cells;
    var a, b := Cells(data, from, 8), Cells(data, from + 8, 8);
    assert (a + " " + b + " ")[0..24] == a;
    assert (a + " " + b + " ")[25..49] == b;
  }

  lemma CellInLine(data: seq<Byte>, i: nat, j: nat)
    requires j < 16
    ensures Line(data, i)[Column(j)..Column(j) + 3] == Cell(data, 16 * i + j)
  {
    hide Cells, OffsetField, Ascii, Cell, Groups;
    var groups := Groups(data, 16 * i);
    assert Line(data, i)[10..60] == groups;
    GroupsAre(data, 16 * i);
    var g, c := if j < 8 then 0 else 25, 3 * (j % 8);
    CellInCells(data, 16 * i + 8 * (j / 8), 8, j % 8);
    SliceOfSlice(Line(data, i), 10, 60, g + c, g + c + 3);
    SliceOfSlice(groups, g, g + 24, c, c + 3);
  }

  lemma SliceOfSlice(t: Text, a: nat, b: nat, c: nat, d: nat)
    requires a <= b <= |t| && c <= d <= b - a
    ensures t[a..b][c..d] == t[a + c..a + d]
  {
    var x, y := t[a..b][c..d], t[a + c..a + d];
    assert |x| == |y|;
    forall i | 0 <= i < |x|
      ensures x[i] == y[i]
    {
      assert x[i] == t[a..b][c + i] == t[a + c + i];
    }
  }

  /** Where the cell of a byte is in the dump. */
  function Place(k: nat): nat {
    LINE * (k / 16) + Column(k % 16)
  }

  /** Each byte can be found in the dump. */
  lemma CellInDump(data: seq<Byte>, k: nat)
    requires data != [] && k < 16 * LineCount(|data|)
    ensures Place(k) + 3 <= |Dump(data)| && Dump(data)[Place(k)..Place(k) + 3] == Cell(data, k)
    ensures Cell(data, k)
            == if k < |data| then ["0123456789ABCDEF"[data[k] / 16], "0123456789ABCDEF"[data[k] % 16], ' '] else "   "
  {
    hide Line, Lines;
    var n, i, j := LineCount(|data|), k / 16, k % 16;
    LineInLines(data, n, i);
    CellInLine(data, i, j);
    var at := Place(k);
    SliceOfSlice(Lines(data, n), LINE * i, LINE * i + LINE, Column(j), Column(j) + 3);
    SliceOfSlice(Lines(data, n), 0, LINE * n - 1, at, at + 3);
  }

  // ---------------------------------------------------------------- column by column

  lemma InDump(data: seq<Byte>, i: nat, c: nat)
    requires data != [] && i < LineCount(|data|) && c < LINE && (i + 1 < LineCount(|data|) || c + 1 < LINE)
    ensures LINE * i + c < |Dump(data)| && Dump(data)[LINE * i + c] == Line(data, i)[c]
  {
    hide Line, Lines;
    var n := LineCount(|data|);
    LineInLines(data, n, i);
    assert Lines(data, n)[LINE * i..LINE * i + LINE][c] == Lines(data, n)[LINE * i + c];
  }

  lemma {:induction false} AsciiAt(data: seq<Byte>, from: nat, n: nat, j: nat)
    requires j < n
    ensures Ascii(data, from, n)[j] == Printable(data, from + j)
  {
    if j + 1 < n {
      AsciiAt(data, from, n - 1, j);
    }
  }

  lemma DivDiv(v: nat, p: nat)
    requires p > 0
    ensures v / 16 / p == v / (16 * p)
  {
    var q := v / 16 / p;
    var r := v / 16 - p * q;
    assert 0 <= r < p;
    assert v == 16 * (p * q + r) + v % 16;
    assert 16 * (p * q + r) == (16 * p) * q + 16 * r;
    DivUnique(v, 16 * p, q);
  }

  function Pow16(n: nat): (p: nat)
    ensures p > 0
  {
    if n == 0 then 1 else 16 * Pow16(n - 1)
  }

  lemma {:induction false} HexAt(v: nat, width: nat, c: nat)
    requires c < width
    ensures Hex(v, width)[c] == "0123456789ABCDEF"[v / Pow16(width - 1 - c) % 16]
  {
    if c + 1 < width {
      HexAt(v / 16, width - 1, c);
      DivDiv(v, Pow16(width - 2 - c));
      assert Hex(v, width)[c] == Hex(v / 16, width - 1)[c];
    } else {
      assert Hex(v, width)[c] == Digit(v % 16);
    }
  }

  /** The character column of a line, and what separates its parts. */
  lemma RestOfLine(data: seq<Byte>, i: nat, j: nat)
    requires j < 16
    ensures Line(data, i)[60 + j] == Printable(data, 16 * i + j)
    ensures Line(data, i)[34] == ' ' && Line(data, i)[59] == ' ' && Line(data, i)[76] == '\n'
    ensures Line(data, i)[..10] == OffsetField(16 * i)
  {
    hide Cells, OffsetField, Ascii, Printable;
    AsciiAt(data, 16 * i, 16, j);
    var groups := Groups(data, 16 * i);
    assert groups[24] == ' ' && groups[49] == ' ';
  }

  /** Every line starts with its offset in eight hexadecimal digits, as long as that many suffice. */
  lemma OffsetInDump(data: seq<Byte>, i: nat, c: nat)
    requires data != [] && i < LineCount(|data|) && 16 * i < 0x1_0000_0000 && c < 8
    ensures var (dump, start) := (Dump(data), LINE * i);
            && start + 10 <= |dump| && dump[start + 8] == ':' && dump[start + 9] == ' '
            && dump[start + c] == "0123456789ABCDEF"[16 * i / Pow16(7 - c) % 16]
  {
    hide Line, OffsetField, Dump, Hex, Pow16;
    RestOfLine(data, i, 0);
    OffsetTextFits(16 * i);
    HexAt(16 * i, 8, c);
    InDump(data, i, c);
    InDump(data, i, 8);
    InDump(data, i, 9);
    assert Line(data, i)[c] == Line(data, i)[..10][c] && Line(data, i)[8] == Line(data, i)[..10][8]
           && Line(data, i)[9] == Line(data, i)[..10][9];
  }

  /** Every printable byte appears as it is, any other as a dot; the groups are apart, and lines end. */
  lemma CharacterInDump(data: seq<Byte>, i: nat, j: nat)
    requires data != [] && i < LineCount(|data|) && j < 16
    ensures var (dump, start, k) := (Dump(data), LINE * i, 16 * i + j);
            && start + 76 <= |dump| && dump[start + 34] == ' ' && dump[start + 59] == ' '
            && (i + 1 < LineCount(|data|) ==> start + 76 < |dump| && dump[start + 76] == '\n')
            && dump[start + 60 + j]
               == if k >= |data| then ' ' else if 32 <= data[k] <= 126 then data[k] as char else '.'
  {
    hide Line, Dump;
    RestOfLine(data, i, j);
    InDump(data, i, 60 + j);
    InDump(data, i, 34);
    InDump(data, i, 59);
    if i + 1 < LineCount(|data|) {
      InDump(data, i, 76);
    }
  }

  lemma DigitInjective(x: nat, y: nat)
    requires x < 16 && y < 16 && Digit(x) == Digit(y)
    ensures x == y
  {}

  lemma CellInjective(a: seq<Byte>, b: seq<Byte>, k: nat)
    requires Cell(a, k) == Cell(b, k)
    ensures k < |a| <==> k < |b|
    ensures k < |a| && k < |b| ==> a[k] == b[k]
  {
    assert Cell(a, k)[0] == Cell(b, k)[0] && Cell(a, k)[1] == Cell(b, k)[1];
    if k < |a| && k < |b| {
      DigitInjective(a[k] / 16, b[k] / 16);
      DigitInjective(a[k] % 16, b[k] % 16);
    }
  }

  /** Different inputs have different dumps: both the bytes and their number can be recovered. */
  lemma DumpInjective(a: seq<Byte>, b: seq<Byte>)
    requires a != [] && b != [] && Dump(a) == Dump(b)
    ensures a == b
  {
    hide Dump;
    var n := LineCount(|a|);
    assert n == LineCount(|b|);
    if |a| < |b| {
      SameCell(a, b, |a|);
    } else if |b| < |a| {
      SameCell(a, b, |b|);
    }
    forall k | 0 <= k < |a|
      ensures a[k] == b[k]
    {
      SameCell(a, b, k);
    }
  }

  lemma SameCell(a: seq<Byte>, b: seq<Byte>, k: nat)
    requires a != [] && b != [] && Dump(a) == Dump(b) && (k < |a| || k < |b|)
    ensures k < |a| && k < |b| && a[k] == b[k]
  {
    hide Dump, Cell;
    assert LineCount(|a|) == LineCount(|b|);
    CellInDump(a, k);
    CellInDump(b, k);
    CellInjective(a, b, k);
  }

  // ---------------------------------------------------------------- the code

  lemma {:induction false} WidthBound(v: nat, n: nat)
    requires n > 0 && v < Pow16(n)
    ensures Width(v) <= n
  {
    if v >= 16 {
      assert n > 1;
      WidthBound(v / 16, n - 1);
    }
  }

  const SIZE_MAX: nat := 0x1_0000_0000_0000_0000

  lemma OffsetTextFits(v: nat)
    requires v < SIZE_MAX
    ensures |OffsetText(v)| <= 18
    ensures v < 0x1_0000_0000 ==> OffsetField(v) == Hex(v, 8) + ": "
  {
    Pow16Values();
    WidthBound(v, 16);
    if v < 0x1_0000_0000 {
      WidthBound(v, 8);
    }
  }

  lemma Pow16Values()
    ensures Pow16(8) == 0x1_0000_0000 && Pow16(16) == SIZE_MAX
  {
    assert Pow16(4) == 65536;
    assert Pow16(6) == 256 * Pow16(4);
    assert Pow16(8) == 256 * Pow16(6);
    assert Pow16(10) == 256 * Pow16(8);
    assert Pow16(12) == 256 * Pow16(10);
    assert Pow16(14) == 256 * Pow16(12);
    assert Pow16(16) == 256 * Pow16(14);
  }

  /** snprintf with room for the whole text and its terminator. */
  method Print(buffer: array<char>, head: nat, size: nat, text: Text)
    requires head + size == buffer.Length && |text| < size
    modifies buffer
    ensures buffer[..head + |text|] == old(buffer[..head]) + text
  {
    forall i | 0 <= i < |text| {
      buffer[head + i] := text[i];
    }
    buffer[head + |text|] := NUL;
  }

  /** One group of eight bytes, and the characters that go with it. */
  method PrintCells(buffer: array<char>, head0: nat, size0: nat, data: seq<Byte>, readIndex0: nat,
                    ascii: array<char>, column: nat, ghost from: nat)
    returns (head: nat, size: nat, readIndex: nat)
    requires head0 + size0 == buffer.Length && size0 > 24 && ascii != buffer && column + 8 < ascii.Length
    requires readIndex0 == if from < |data| then from else |data|
    modifies buffer, ascii
    ensures head == head0 + 24 && size == size0 - 24
    ensures readIndex == if from + 8 < |data| then from + 8 else |data|
    ensures buffer[..head] == old(buffer[..head0]) + Cells(data, from, 8)
    ensures ascii[..column + 8] == old(ascii[..column]) + Ascii(data, from, 8)
  {
    hide Cell, Printable;
    head, size, readIndex := head0, size0, readIndex0;
    for j := 0 to 8
      invariant head == head0 + 3 * j && size == size0 - 3 * j
      invariant readIndex == if from + j < |data| then from + j else |data|
      invariant buffer[..head] == old(buffer[..head0]) + Cells(data, from, j)
      invariant ascii[..column + j] == old(ascii[..column]) + Ascii(data, from, j)
    {
      var text, printable := CellText(data, readIndex, from + j);
      readIndex := if readIndex < |data| then readIndex + 1 else readIndex;
      Print(buffer, head, size, text);
      ascii[column + j] := printable;
      assert ascii[..column + j + 1] == ascii[..column + j] + [printable];
      head, size := head + 3, size - 3;
    }
  }

  method CellText(data: seq<Byte>, readIndex: nat, ghost k: nat) returns (text: Text, printable: char)
    requires readIndex == if k < |data| then k else |data|
    ensures text == Cell(data, k) && printable == Printable(data, k)
  {
    if readIndex < |data| {
      var c := data[readIndex];
      text := [Digit(c / 16), Digit(c % 16), ' '];
      printable := if ' ' as int <= c <= '~' as int then c as char else '.';
    } else {
      text, printable := "   ", ' ';
    }
  }

  lemma {:induction false} AsciiSplit(data: seq<Byte>, from: nat, n: nat, m: nat)
    ensures Ascii(data, from, n + m) == Ascii(data, from, n) + Ascii(data, from + n, m)
  {
    hide Printable;
    if m > 0 {
      AsciiSplit(data, from, n, m - 1);
    } else {
      assert Ascii(data, from + n, 0) == [];
    }
  }

  /** One line, in place at the write head. */
  method PrintLine(buffer: array<char>, head0: nat, size0: nat, data: seq<Byte>, i: nat, readIndex0: nat,
                   ascii: array<char>)
    returns (head: nat, size: nat, readIndex: nat)
    requires head0 + size0 == buffer.Length && size0 > LINE && ascii != buffer && ascii.Length == 17
    requires readIndex0 == (if 16 * i < |data| then 16 * i else |data|) && 16 * i < SIZE_MAX
    modifies buffer, ascii
    ensures head == head0 + LINE && size == size0 - LINE
    ensures readIndex == if 16 * (i + 1) < |data| then 16 * (i + 1) else |data|
    ensures buffer[..head] == old(buffer[..head0]) + Line(data, i)
  {
    hide Cells, Ascii, OffsetText, Line;
    ghost var start := buffer[..head0];
    OffsetTextFits(16 * i);
    Print(buffer, head0, size0, OffsetText(16 * i));
    head, size := head0 + 10, size0 - 10;
    assert buffer[..head] == start + OffsetField(16 * i) by {
      assert buffer[..head] == buffer[..head0 + |OffsetText(16 * i)|][..head];
    }
    ghost var first, second := Cells(data, 16 * i, 8), Cells(data, 16 * i + 8, 8);
    head, size, readIndex := PrintCells(buffer, head, size, data, readIndex0, ascii, 0, 16 * i);
    Print(buffer, head, size, " ");
    head, size := head + 1, size - 1;
    assert buffer[..head] == start + OffsetField(16 * i) + first + " ";
    head, size, readIndex := PrintCells(buffer, head, size, data, readIndex, ascii, 8, 16 * i + 8);
    Print(buffer, head, size, " ");
    head, size := head + 1, size - 1;
    assert buffer[..head] == start + OffsetField(16 * i) + first + " " + second + " ";
    ascii[16] := NUL;
    AsciiSplit(data, 16 * i, 8, 8);
    assert ascii[..16] == Ascii(data, 16 * i, 16);
    Print(buffer, head, size, ascii[..16] + "\n");
    head, size := head + 17, size - 17;
    LineIs(start, data, i);
  }

  lemma LineIs(start: Text, data: seq<Byte>, i: nat)
    ensures start + OffsetField(16 * i) + Cells(data, 16 * i, 8) + " " + Cells(data, 16 * i + 8, 8) + " "
            + (Ascii(data, 16 * i, 16) + "\n") == start + Line(data, i)
  {
    hide Cells, Ascii, OffsetField;
    var o, a, b, c := OffsetField(16 * i), Cells(data, 16 * i, 8), Cells(data, 16 * i + 8, 8), Ascii(data, 16 * i, 16);
    assert start + o + a + " " + b + " " + (c + "\n") == start + (o + (a + " " + b + " ") + c + "\n");
  }

  /** All lines, from the start of the buffer. */
  method PrintLines(buffer: array<char>, data: seq<Byte>, lines: nat) returns (head: nat)
    requires buffer.Length == LINE * lines + 1 && lines == LineCount(|data|) && buffer.Length < SIZE_MAX
    modifies buffer
    ensures head == LINE * lines && buffer[..head] == Lines(data, lines)
  {
    hide Line;
    var ascii := new char[17](_ => NUL);
    var size, readIndex := buffer.Length, 0;
    head := 0;
    for i := 0 to lines
      invariant head == LINE * i && head + size == buffer.Length
      invariant readIndex == if 16 * i < |data| then 16 * i else |data|
      invariant buffer[..head] == Lines(data, i)
    {
      head, size, readIndex := PrintLine(buffer, head, size, data, i, readIndex, ascii);
    }
  }

  /** No character before the end is a terminator. */
  ghost predicate Clean(t: Text) {
    forall i :: 0 <= i < |t| ==> t[i] != NUL
  }

  lemma {:induction false} HexClean(v: nat, width: nat)
    ensures Clean(Hex(v, width))
  {
    if width > 0 {
      HexClean(v / 16, width - 1);
    }
  }

  lemma {:induction false} CellsClean(data: seq<Byte>, from: nat, n: nat)
    ensures Clean(Cells(data, from, n))
  {
    hide Cell;
    if n > 0 {
      CellsClean(data, from, n - 1);
      CellClean(data, from + n - 1);
    }
  }

  lemma CellClean(data: seq<Byte>, k: nat)
    ensures Clean(Cell(data, k))
  {}

  lemma {:induction false} AsciiClean(data: seq<Byte>, from: nat, n: nat)
    ensures Clean(Ascii(data, from, n))
  {
    if n > 0 {
      AsciiClean(data, from, n - 1);
    }
  }

  lemma LineClean(data: seq<Byte>, i: nat)
    ensures Clean(Line(data, i))
  {
    hide Hex, Cells, Ascii;
    HexClean(16 * i, if Width(16 * i) < 8 then 8 else Width(16 * i));
    CellsClean(data, 16 * i, 8);
    CellsClean(data, 16 * i + 8, 8);
    AsciiClean(data, 16 * i, 16);
  }

  lemma {:induction false} LinesClean(data: seq<Byte>, n: nat)
    ensures Clean(Lines(data, n))
  {
    hide Line;
    if n > 0 {
      LinesClean(data, n - 1);
      LineClean(data, n - 1);
    }
  }

  /**
   hex_dump. Nothing is dumped for an empty input or without memory; otherwise the buffer holds the dump as a
   terminated string, and the terminator is the only one. Every write finds room for its text and the terminator.
   */
  method Format(data: seq<Byte>, memory: bool) returns (buffer: array?<char>)
    requires LINE * LineCount(|data|) + 1 < SIZE_MAX
    ensures buffer == null <==> data == [] || !memory
    ensures buffer != null ==>
      && fresh(buffer) && buffer.Length == LINE * LineCount(|data|) + 1
      && buffer[..|Dump(data)|] == Dump(data) && buffer[|Dump(data)|] == NUL && Clean(Dump(data))
  {
    hide Lines, Clean;
    if data == [] {
      return null;
    }
    var lines := (|data| + 16 - 1) / 16;
    if !memory {
      return null;
    }
    var b := new char[lines * LINE + 1](_ => NUL);
    var head := PrintLines(b, data, lines);
    ghost var all := b[..head];
    b[head - 1] := NUL;
    assert b[..head - 1] == all[..head - 1];
    LinesClean(data, lines);
    CleanPrefix(Lines(data, lines), head - 1);
    return b;
  }

  lemma CleanPrefix(t: Text, n: nat)
    requires Clean(t) && n <= |t|
    ensures Clean(t[..n])
  {}
}
