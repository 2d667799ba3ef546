// The WFN bitmap font renderer. A font is the byte image of a ".wfn" file:
// a 15-byte signature, a little-endian 16-bit address of the character table
// at byte 15, a table of 16-bit glyph addresses, and per glyph a 16-bit
// width, a 16-bit height and the glyph's rows of bits, most significant bit
// first.
module WfnFont {
  import opened Wrappers
  import opened CInt

  const SIGNATURE_TEXT: string := "WGT Font File  "
  const QUESTION_MARK: Byte := 63

  /** The signature as the bytes a font file starts with. */
  function Signature(): (s: seq<Byte>)
    ensures |s| == 15
    ensures forall i :: 0 <= i < 15 ==> s[i] == SIGNATURE_TEXT[i] as int
  {
    seq(15, i requires 0 <= i < 15 => SIGNATURE_TEXT[i] as int)
  }

  /** A little-endian unsigned 16-bit word. */
  function LE16(data: seq<Byte>, off: int): (r: int)
    requires 0 <= off && off + 2 <= |data|
    ensures 0 <= r < 0x1_0000
    ensures r % 256 == data[off] && r / 256 == data[off + 1]
  {
    var lo: int := data[off];
    var hi: int := data[off + 1];
    lo + 256 * hi
  }

  /** Number of characters a font's table is indexed with. */
  function CharCount(extended: bool): nat
  {
    if extended then 256 else 128
  }

  predicate TableEntryReadable(font: seq<Byte>, c: int)
  {
    |font| >= 17 && 0 <= c && LE16(font, 15) + 2 * c + 2 <= |font|
  }

  /** psp_get_char: the address of a character's glyph, read through the
      table whose address is at byte 15. None when a read falls outside the
      font (undefined behaviour in the C code). */
  function GlyphAddress(font: seq<Byte>, c: Byte): (r: Option<nat>)
    ensures r.Some? <==> TableEntryReadable(font, c)
    ensures r.Some? ==> r.value == LE16(font, LE16(font, 15) + 2 * c)
  {
    if TableEntryReadable(font, c) then Some(LE16(font, LE16(font, 15) + 2 * c)) else None
  }

  /** Bytes per glyph row: ((width - 1) / 8) + 1 with C division. */
  function RowBytes(width: int): (n: int)
    requires width >= 0
    ensures n >= 1
    ensures width >= 1 ==> (n - 1) * 8 < width <= n * 8
  {
    CDiv(width - 1, 8) + 1
  }

  /** The glyph of character c has a readable header and bitmap. */
  predicate GlyphReadable(font: seq<Byte>, c: Byte)
  {
    GlyphAddress(font, c).Some? &&
    GlyphAddress(font, c).value + 4 <= |font| &&
    GlyphAddress(font, c).value + 4 +
      LE16(font, GlyphAddress(font, c).value + 2) * RowBytes(LE16(font, GlyphAddress(font, c).value)) <= |font|
  }

  /** Every character the renderer can look up has a readable glyph. */
  predicate ValidFont(font: seq<Byte>, extended: bool)
  {
    forall c: Byte :: c < CharCount(extended) ==> GlyphReadable(font, c)
  }

  /** In a font without extended characters, bytes of 128 and above are
      measured and drawn as '?'. */
  function MapChar(c: Byte, extended: bool): (r: Byte)
    ensures r < CharCount(extended)
    ensures extended || c < 128 ==> r == c
    ensures !extended && c >= 128 ==> r == QUESTION_MARK
  {
    if !extended && c >= 128 then QUESTION_MARK else c
  }

  /** The glyph address of a character after MapChar; its header and bitmap
      lie inside the font. */
  function GlyphOf(font: seq<Byte>, extended: bool, c: Byte): (g: nat)
    requires ValidFont(font, extended)
    ensures g + 4 <= |font|
    ensures g + 4 + LE16(font, g + 2) * RowBytes(LE16(font, g)) <= |font|
    ensures GlyphAddress(font, MapChar(c, extended)) == Some(g)
  {
    assert GlyphReadable(font, MapChar(c, extended));
    GlyphAddress(font, MapChar(c, extended)).value
  }

  function CharWidth(font: seq<Byte>, extended: bool, c: Byte): (w: int)
    requires ValidFont(font, extended)
    ensures 0 <= w < 0x1_0000
  {
    LE16(font, GlyphOf(font, extended, c))
  }

  function CharHeight(font: seq<Byte>, extended: bool, c: Byte): (h: int)
    requires ValidFont(font, extended)
    ensures 0 <= h < 0x1_0000
  {
    LE16(font, GlyphOf(font, extended, c) + 2)
  }

  /** Sum of the glyph widths of a text, in font pixels. */
  function TextWidth(font: seq<Byte>, extended: bool, text: seq<Byte>): nat
    requires ValidFont(font, extended)
  {
    if |text| == 0 then 0
    else TextWidth(font, extended, text[..|text| - 1]) + CharWidth(font, extended, text[|text| - 1])
  }

  /** Largest glyph height of a text, 0 for the empty text. */
  function TextHeight(font: seq<Byte>, extended: bool, text: seq<Byte>): nat
    requires ValidFont(font, extended)
  {
    if |text| == 0 then 0
    else
      var h := TextHeight(font, extended, text[..|text| - 1]);
      var c := CharHeight(font, extended, text[|text| - 1]);
      if c > h then c else h
  }

  /** Width is additive over concatenation. */
  lemma {:induction false} TextWidthAppend(font: seq<Byte>, extended: bool, a: seq<Byte>, b: seq<Byte>)
    requires ValidFont(font, extended)
    ensures TextWidth(font, extended, a + b) == TextWidth(font, extended, a) + TextWidth(font, extended, b)
    decreases |b|
  {
    if |b| == 0 {
      assert a + b == a;
    } else {
      var b' := b[..|b| - 1];
      assert (a + b)[..|a + b| - 1] == a + b';
      assert (a + b)[|a + b| - 1] == b[|b| - 1];
      TextWidthAppend(font, extended, a, b');
    }
  }

  /** The height bounds every glyph of the text and is reached by one of
      them when the text is not empty. */
  lemma {:induction false} TextHeightIsMax(font: seq<Byte>, extended: bool, text: seq<Byte>)
    requires ValidFont(font, extended)
    ensures forall i :: 0 <= i < |text| ==> CharHeight(font, extended, text[i]) <= TextHeight(font, extended, text)
    ensures |text| > 0 ==> exists i :: 0 <= i < |text| && CharHeight(font, extended, text[i]) == TextHeight(font, extended, text)
  {
    if |text| > 0 {
      var p := text[..|text| - 1];
      TextHeightIsMax(font, extended, p);
      assert forall i :: 0 <= i < |p| ==> p[i] == text[i];
      if |p| > 0 && TextHeight(font, extended, text) == TextHeight(font, extended, p) {
        var j :| 0 <= j < |p| && CharHeight(font, extended, p[j]) == TextHeight(font, extended, p);
        assert CharHeight(font, extended, text[j]) == TextHeight(font, extended, text);
      } else {
        assert CharHeight(font, extended, text[|text| - 1]) == TextHeight(font, extended, text);
      }
    }
  }

  /** What EnsureTextValidForFont makes of a text: every byte above 127
      becomes '?'. */
  function Sanitised(text: seq<Byte>): (r: seq<Byte>)
    ensures |r| == |text|
    ensures forall i :: 0 <= i < |text| ==> r[i] == if text[i] > 127 then QUESTION_MARK else text[i]
  {
    seq(|text|, i requires 0 <= i < |text| => if text[i] > 127 then QUESTION_MARK else text[i])
  }

  /** Sanitising a text does not change how a non-extended font measures it. */
  /** A byte and its sanitised form pick the same glyph of a font without
      extended characters. */
  lemma SanitisedCharSame(font: seq<Byte>, c: Byte)
    requires ValidFont(font, false)
    ensures var d := if c > 127 then QUESTION_MARK else c;
      CharWidth(font, false, d) == CharWidth(font, false, c) &&
      CharHeight(font, false, d) == CharHeight(font, false, c)
  {
    var d := if c > 127 then QUESTION_MARK else c;
    assert MapChar(d, false) == MapChar(c, false);
  }

  lemma {:induction false} SanitisedMeasuresSame(font: seq<Byte>, text: seq<Byte>)
    requires ValidFont(font, false)
    ensures TextWidth(font, false, Sanitised(text)) == TextWidth(font, false, text)
    ensures TextHeight(font, false, Sanitised(text)) == TextHeight(font, false, text)
  {
    if |text| > 0 {
      var p := text[..|text| - 1];
      var st := Sanitised(text);
      SanitisedMeasuresSame(font, p);
      assert st[..|st| - 1] == Sanitised(p);
      SanitisedCharSame(font, text[|text| - 1]);
    }
  }


  /** Length of the C string held in a buffer: the index of its first NUL. */
  function CLen(s: seq<Byte>): (n: nat)
    requires 0 in s
    ensures n < |s| && s[n] == 0
    ensures forall i :: 0 <= i < n ==> s[i] != 0
  {
    if s[0] == 0 then 0 else CLen(s[1..]) + 1
  }

  /** Bit `col` of row `row` of the glyph bitmap starting at `data`, tested
      against the mask 0x80 >> (col % 8); false outside the font. */
  predicate PixelAt(font: seq<Byte>, data: int, rowBytes: int, row: int, col: int)
  {
    0 <= data && 0 <= row && 0 <= col && col / 8 < rowBytes &&
    0 <= BitByteIndex(data, rowBytes, row, col) < |font| &&
    MaskBit(font[BitByteIndex(data, rowBytes, row, col)], col)
  }

  /** The byte holding bit col of row row: row * rowBytes + col / 8 past data. */
  function BitByteIndex(data: int, rowBytes: int, row: int, col: int): int
  {
    data + row * rowBytes + col / 8
  }

  /** b & (0x80 >> (col % 8)) != 0: bit col of a row, most significant first. */
  predicate MaskBit(b: Byte, col: int)
  {
    (b as bv8) & ((0x80 as bv8) >> (col % 8)) != 0
  }

  /** A drawn cell: the top-left corner of the square (of side wtext_multiply)
      painted for one set glyph bit. */
  type Cell = (int, int)

  /** Cells of columns 0 .. n-1 of one glyph row, in drawing order. */
  function RowCells(font: seq<Byte>, data: int, rowBytes: int, x: int, y: int, mult: int, row: int, n: nat): (r: seq<Cell>)
  {
    if n == 0 then []
    else
      RowCells(font, data, rowBytes, x, y, mult, row, n - 1) +
      (if PixelAt(font, data, rowBytes, row, n - 1) then [(x + (n - 1) * mult, y + row * mult)] else [])
  }

  /** Cells of rows 0 .. rows-1 of a glyph of the given width. */
  function GlyphCells(font: seq<Byte>, data: int, rowBytes: int, width: nat, x: int, y: int, mult: int, rows: nat): (r: seq<Cell>)
  {
    if rows == 0 then []
    else
      GlyphCells(font, data, rowBytes, width, x, y, mult, rows - 1) +
      RowCells(font, data, rowBytes, x, y, mult, rows - 1, width)
  }

  lemma {:induction false} RowCellsBounds(font: seq<Byte>, data: int, rowBytes: int, x: int, y: int, mult: int, row: int, n: nat)
    requires 1 <= mult
    ensures forall p :: p in RowCells(font, data, rowBytes, x, y, mult, row, n) ==>
      p.1 == y + row * mult && x <= p.0 < x + n * mult
  {
    if n > 0 {
      var lo, hi := (n - 1) * mult, n * mult;
      MulNonNegative(n - 1, mult);
      assert lo + mult == hi;
      var prev := RowCells(font, data, rowBytes, x, y, mult, row, n - 1);
      var last := if PixelAt(font, data, rowBytes, row, n - 1) then [(x + lo, y + row * mult)] else [];
      assert RowCells(font, data, rowBytes, x, y, mult, row, n) == prev + last;
      forall p: Cell | p in prev + last
        ensures p.1 == y + row * mult && x <= p.0 < x + hi
      {
        if p in prev {
          RowCellsBounds(font, data, rowBytes, x, y, mult, row, n - 1);
          assert x <= p.0 < x + lo;
        }
      }
    }
  }


  lemma MulStrictMono(a: int, b: int, m: int)
    requires a < b && 1 <= m
    ensures a * m < b * m
  {
    assert b * m - a * m == (b - a) * m;
  }

  /** A cell of the row is drawn exactly when its glyph bit is set. */
  lemma {:induction false} RowCellIffBit(font: seq<Byte>, data: int, rowBytes: int, x: int, y: int, mult: int, row: int, n: nat, col: int)
    requires 1 <= mult
    requires 0 <= col < n
    ensures (x + col * mult, y + row * mult) in RowCells(font, data, rowBytes, x, y, mult, row, n)
            <==> PixelAt(font, data, rowBytes, row, col)
  {
    var cell := (x + col * mult, y + row * mult);
    var prev := RowCells(font, data, rowBytes, x, y, mult, row, n - 1);
    var last := (x + (n - 1) * mult, y + row * mult);
    assert RowCells(font, data, rowBytes, x, y, mult, row, n) ==
      prev + (if PixelAt(font, data, rowBytes, row, n - 1) then [last] else []);
    if col == n - 1 {
      assert cell !in prev by {
        RowCellsBounds(font, data, rowBytes, x, y, mult, row, n - 1);
      }
    } else {
      RowCellIffBit(font, data, rowBytes, x, y, mult, row, n - 1, col);
      assert cell != last by {
        MulStrictMono(col, n - 1, mult);
      }
    }
  }

  lemma {:induction false} GlyphCellsBounds(font: seq<Byte>, data: int, rowBytes: int, width: nat, x: int, y: int, mult: int, rows: nat)
    requires 1 <= mult
    ensures forall p :: p in GlyphCells(font, data, rowBytes, width, x, y, mult, rows) ==> y <= p.1 < y + rows * mult
  {
    if rows > 0 {
      var lo, hi := (rows - 1) * mult, rows * mult;
      MulNonNegative(rows - 1, mult);
      assert lo + mult == hi;
      var prev := GlyphCells(font, data, rowBytes, width, x, y, mult, rows - 1);
      var last := RowCells(font, data, rowBytes, x, y, mult, rows - 1, width);
      assert GlyphCells(font, data, rowBytes, width, x, y, mult, rows) == prev + last;
      forall p: Cell | p in prev + last
        ensures y <= p.1 < y + hi
      {
        if p in prev {
          GlyphCellsBounds(font, data, rowBytes, width, x, y, mult, rows - 1);
          assert y <= p.1 < y + lo;
        } else {
          RowCellsBounds(font, data, rowBytes, x, y, mult, rows - 1, width);
          assert p.1 == y + lo;
        }
      }
    }
  }


  /** The glyph layout: the square at (x + col * mult, y + row * mult) is
      painted exactly when bit col of row row is set. */
  lemma {:induction false} GlyphCellIffBit(font: seq<Byte>, data: int, rowBytes: int, width: nat, x: int, y: int, mult: int, rows: nat, row: int, col: int)
    requires 1 <= mult
    requires 0 <= row < rows && 0 <= col < width
    ensures (x + col * mult, y + row * mult) in GlyphCells(font, data, rowBytes, width, x, y, mult, rows)
            <==> PixelAt(font, data, rowBytes, row, col)
  {
    var cell := (x + col * mult, y + row * mult);
    var prev := GlyphCells(font, data, rowBytes, width, x, y, mult, rows - 1);
    var lastRow := RowCells(font, data, rowBytes, x, y, mult, rows - 1, width);
    assert GlyphCells(font, data, rowBytes, width, x, y, mult, rows) == prev + lastRow;
    if row == rows - 1 {
      GlyphCellsBounds(font, data, rowBytes, width, x, y, mult, rows - 1);
      assert cell !in prev;
      RowCellIffBit(font, data, rowBytes, x, y, mult, row, width, col);
    } else {
      GlyphCellIffBit(font, data, rowBytes, width, x, y, mult, rows - 1, row, col);
      RowCellsBounds(font, data, rowBytes, x, y, mult, rows - 1, width);
      MulStrictMono(row, rows - 1, mult);
      assert cell !in lastRow;
    }
  }

  /** The pen arithmetic of printchar: after k steps of (mult - 1) the pixel
      at offset k lands at k * mult. */
  lemma StepArith(k: int, mult: int)
    ensures k * (mult - 1) + k == k * mult
    ensures k * (mult - 1) + (mult - 1) == (k + 1) * (mult - 1)
  {
  }

  lemma Distribute(a: int, b: int, m: int)
    ensures (a + b) * m == a * m + b * m
  {
  }

  lemma MulMono(a: int, b: int, m: int)
    requires a <= b && 0 <= m
    ensures a * m <= b * m
  {
    assert b * m - a * m == (b - a) * m;
  }

  /** Inside a glyph of a valid font every bit test reads a byte of the glyph
      bitmap, so PixelAt is exactly the mask test on that byte. */
  lemma GlyphBitInside(font: seq<Byte>, extended: bool, c: Byte, row: int, col: int)
    requires ValidFont(font, extended)
    requires 0 <= row < CharHeight(font, extended, c) && 0 <= col < CharWidth(font, extended, c)
    ensures var g := GlyphOf(font, extended, c);
            var rb := RowBytes(CharWidth(font, extended, c));
            0 <= BitByteIndex(g + 4, rb, row, col) < g + 4 + CharHeight(font, extended, c) * rb &&
            (PixelAt(font, g + 4, rb, row, col) <==> MaskBit(font[BitByteIndex(g + 4, rb, row, col)], col))
  {
    var g := GlyphOf(font, extended, c);
    var w := CharWidth(font, extended, c);
    var rb := RowBytes(w);
    var h := CharHeight(font, extended, c);
    assert col / 8 < rb;
    MulMono(row + 1, h, rb);
    assert (row + 1) * rb == row * rb + rb;
    MulMono(0, row, rb);
  }

  /** The font buffer LoadFromDisk keeps: the file read into an allocation
      40 bytes longer than the file (the extra bytes are taken as zero). */
  function LoadedBuffer(file: seq<Byte>): (b: seq<Byte>)
    ensures |b| == |file| + 40 && b[..|file|] == file
  {
    file + seq(40, i => 0)
  }

  /** The extended-characters test: (file length - table address) / 2 > 128. */
  function HasExtendedCharacters(file: seq<Byte>): bool
  {
    CDiv(|file| - LE16(LoadedBuffer(file), 15), 2) > 128
  }

  /** A font has extended characters exactly when its table can hold more
      than 128 two-byte entries before the end of the file. */
  lemma ExtendedIffTableHoldsMoreThan128(file: seq<Byte>)
    ensures HasExtendedCharacters(file) <==> |file| - LE16(LoadedBuffer(file), 15) >= 2 * 129
  {
  }

  /** The file name a font number is looked up under. */
  function FontFileName(fontNumber: int): (name: string)
    ensures name == "agsfnt" + IntToDecimal(fontNumber) + ".wfn"
  {
    "agsfnt" + IntToDecimal(fontNumber) + ".wfn"
  }

  /** The outcome of loading a font from an opened file: the buffer and its
      extended flag, or None when the signature does not match. */
  function ParseFontFile(file: seq<Byte>): (r: Option<(seq<Byte>, bool)>)
    ensures r.Some? <==> |file| >= 15 && file[..15] == Signature()
    ensures r.Some? ==> |r.value.0| == |file| + 40 && r.value.0[..|file|] == file
    ensures r.Some? ==> r.value.1 == HasExtendedCharacters(file)
  {
    if |file| >= 15 && file[..15] == Signature() then Some((LoadedBuffer(file), HasExtendedCharacters(file)))
    else None
  }

  /** The inner loop of printchar: one glyph row, left to right. The pen
      starts at `x` and moves `mult - 1` further per column, and the cell
      drawn for column `ss` is at (pen + ss, rowY + row). */
  method PrintRow(font: seq<Byte>, actdata: int, bytewid: int, charWidth: int, x: int, y: int, rowY: int, mult: int, row: int)
    returns (cells: seq<Cell>)
    requires 0 <= charWidth && rowY == y + row * (mult - 1)
    ensures cells == RowCells(font, actdata, bytewid, x, y, mult, row, charWidth)
  {
    var xxx := x;
    cells := [];
    var ss := 0;
    while ss < charWidth
      invariant 0 <= ss <= charWidth
      invariant xxx == x + ss * (mult - 1)
      invariant cells == RowCells(font, actdata, bytewid, x, y, mult, row, ss)
    {
      if PixelAt(font, actdata, bytewid, row, ss) {
        StepArith(ss, mult);
        StepArith(row, mult);
        cells := cells + [(xxx + ss, rowY + row)];
      }
      StepArith(ss, mult);
      xxx := xxx + mult - 1;
      ss := ss + 1;
    }
  }

  /** Measuring one more character of a text adds that character's width,
      at any scale. */
  lemma WidthStep(font: seq<Byte>, ext: bool, text: seq<Byte>, k: int, mult: int)
    requires ValidFont(font, ext) && 0 <= k < |text|
    ensures TextWidth(font, ext, text[..k + 1]) * mult ==
      TextWidth(font, ext, text[..k]) * mult + CharWidth(font, ext, text[k]) * mult
  {
    assert text[..k + 1][..k] == text[..k];
    Distribute(TextWidth(font, ext, text[..k]), CharWidth(font, ext, text[k]), mult);
  }

  class WFNFontRenderer {
    /** fonts[]: the loaded font buffers by font number. */
    var fonts: map<int, seq<Byte>>
    var extendedCharacters: map<int, bool>
    /** wtext_multiply: the pixel scale glyphs are drawn and measured at. */
    var textMultiply: int

    constructor (multiply: int)
      ensures fonts == map[] && extendedCharacters == map[] && textMultiply == multiply
    {
      fonts := map[];
      extendedCharacters := map[];
      textMultiply := multiply;
    }

    /** The font is loaded and every glyph it can be asked for is readable. */
    predicate Usable(fontNumber: int)
      reads this
    {
      fontNumber in fonts && fontNumber in extendedCharacters &&
      ValidFont(fonts[fontNumber], extendedCharacters[fontNumber])
    }

    method EnsureTextValidForFont(text: array<Byte>, fontNumber: int)
      requires fontNumber in extendedCharacters
      requires 0 in text[..]
      modifies text
      ensures extendedCharacters[fontNumber] ==> text[..] == old(text[..])
      ensures !extendedCharacters[fontNumber] ==>
        text[..] == Sanitised(old(text[..])[..CLen(old(text[..]))]) + old(text[..])[CLen(old(text[..]))..]
    {
      if extendedCharacters[fontNumber] {
        return;
      }
      ghost var s := text[..];
      ghost var n := CLen(s);
      var i := 0;
      while text[i] != 0
        invariant 0 <= i <= n
        invariant forall j :: 0 <= j < i ==> text[j] == if s[j] > 127 then QUESTION_MARK else s[j]
        invariant forall j :: i <= j < text.Length ==> text[j] == s[j]
        decreases n - i
      {
        if text[i] > 127 {
          text[i] := QUESTION_MARK;
        }
        i := i + 1;
      }
      assert text[..] == Sanitised(s[..n]) + s[n..];
    }

    method GetTextWidth(text: seq<Byte>, fontNumber: int) returns (w: int)
      requires Usable(fontNumber)
      ensures w == TextWidth(fonts[fontNumber], extendedCharacters[fontNumber], text) * textMultiply
    {
      var font, ext := fonts[fontNumber], extendedCharacters[fontNumber];
      var totlen := 0;
      var dd := 0;
      while dd < |text|
        invariant 0 <= dd <= |text|
        invariant totlen == TextWidth(font, ext, text[..dd])
      {
        var glyph := GlyphOf(font, ext, text[dd]);
        totlen := totlen + LE16(font, glyph);
        assert text[..dd + 1][..dd] == text[..dd];
        dd := dd + 1;
      }
      assert text[..dd] == text;
      w := totlen * textMultiply;
    }

    method GetTextHeight(text: seq<Byte>, fontNumber: int) returns (h: int)
      requires Usable(fontNumber)
      ensures h == TextHeight(fonts[fontNumber], extendedCharacters[fontNumber], text) * textMultiply
    {
      var font, ext := fonts[fontNumber], extendedCharacters[fontNumber];
      var highest := 0;
      var dd := 0;
      while dd < |text|
        invariant 0 <= dd <= |text|
        invariant highest == TextHeight(font, ext, text[..dd])
      {
        var glyph := GlyphOf(font, ext, text[dd]);
        var charHeight := LE16(font, glyph + 2);
        if charHeight > highest {
          highest := charHeight;
        }
        assert text[..dd + 1][..dd] == text[..dd];
        dd := dd + 1;
      }
      assert text[..dd] == text;
      h := highest * textMultiply;
    }

    /** printchar: the cells painted for one character at (x, y) and the
        horizontal advance. */
    method PrintChar(x: int, y: int, fontNumber: int, charr: Byte) returns (advance: int, cells: seq<Cell>)
      requires Usable(fontNumber)
      ensures advance == CharWidth(fonts[fontNumber], extendedCharacters[fontNumber], charr) * textMultiply
      ensures var font := fonts[fontNumber];
              var ext := extendedCharacters[fontNumber];
              var w := CharWidth(font, ext, charr);
              cells == GlyphCells(font, GlyphOf(font, ext, charr) + 4, RowBytes(w), w,
                                  x, y, textMultiply, CharHeight(font, ext, charr))
    {
      var font := fonts[fontNumber];
      var tabaddr := GlyphOf(font, extendedCharacters[fontNumber], charr);
      var charWidth := LE16(font, tabaddr);
      var charHeight := LE16(font, tabaddr + 2);
      var actdata := tabaddr + 4;
      var bytewid := RowBytes(charWidth);
      var mult := textMultiply;
      var yyy := y;
      cells := [];
      var tt := 0;
      while tt < charHeight
        invariant 0 <= tt <= charHeight
        invariant yyy == y + tt * (mult - 1)
        invariant cells == GlyphCells(font, actdata, bytewid, charWidth, x, y, mult, tt)
      {
        var row := PrintRow(font, actdata, bytewid, charWidth, x, y, yyy, mult, tt);
        StepArith(tt, mult);
        cells := cells + row;
        yyy := yyy + mult - 1;
        tt := tt + 1;
      }
      advance := charWidth * mult;
    }

    /** RenderText: draws each character in turn, advancing the pen. */
    method RenderText(text: seq<Byte>, fontNumber: int, x: int, y: int) returns (xEnd: int)
      requires Usable(fontNumber)
      ensures xEnd == x + TextWidth(fonts[fontNumber], extendedCharacters[fontNumber], text) * textMultiply
    {
      var font, ext, mult := fonts[fontNumber], extendedCharacters[fontNumber], textMultiply;
      xEnd := x;
      var ee := 0;
      while ee < |text|
        invariant 0 <= ee <= |text|
        invariant xEnd == x + TextWidth(font, ext, text[..ee]) * mult
      {
        var advance, cells := PrintChar(xEnd, y, fontNumber, text[ee]);
        WidthStep(font, ext, text, ee, mult);
        xEnd := xEnd + advance;
        ee := ee + 1;
      }
      assert text[..ee] == text;
    }

    /** LoadFromDisk: opens agsfnt<N>.wfn, falling back to agsfnt0.wfn,
        checks the signature and records the buffer and its extended flag. */
    method LoadFromDisk(fontNumber: int, open: string -> Option<seq<Byte>>) returns (ok: bool)
      modifies this
      ensures var file := if open(FontFileName(fontNumber)).Some? then open(FontFileName(fontNumber)) else open("agsfnt0.wfn");
              ok <==> file.Some? && ParseFontFile(file.value).Some?
      ensures var file := if open(FontFileName(fontNumber)).Some? then open(FontFileName(fontNumber)) else open("agsfnt0.wfn");
              ok ==> fonts == old(fonts)[fontNumber := ParseFontFile(file.value).value.0] &&
                     extendedCharacters == old(extendedCharacters)[fontNumber := ParseFontFile(file.value).value.1]
      ensures !ok ==> fonts == old(fonts) && extendedCharacters == old(extendedCharacters)
      ensures textMultiply == old(textMultiply)
    {
      var filnm := FontFileName(fontNumber);
      var ffi := open(filnm);
      if ffi.None? {
        filnm := "agsfnt0.wfn";
        ffi := open(filnm);
        if ffi.None? {
          return false;
        }
      }
      var file := ffi.value;
      if !(|file| >= 15 && file[..15] == Signature()) {
        return false;
      }
      var buffer := LoadedBuffer(file);
      fonts := fonts[fontNumber := buffer];
      extendedCharacters := extendedCharacters[fontNumber := CDiv(|file| - LE16(buffer, 15), 2) > 128];
      return true;
    }

    method FreeMemory(fontNumber: int)
      modifies this
      ensures fonts == old(fonts) - {fontNumber}
      ensures extendedCharacters == old(extendedCharacters) && textMultiply == old(textMultiply)
    {
      fonts := fonts - {fontNumber};
    }
  }
}
