// The engine's Bitmap wrapper around an Allegro BITMAP: the inline accessors
// are arithmetic over width, height and colour depth. Pixels are held as a
// two-dimensional array indexed [row, column]; each entry is one colour value.
module AllegroBitmap {
  import opened Wrappers

  datatype Size = Size(width: int, height: int)

  class Bitmap {
    /** The underlying Allegro bitmap; null when the wrapper holds none. */
    const data: array2?<int>
    const colorDepth: nat
    const maskColor: int

    constructor (width: nat, height: nat, depth: nat, mask: int)
      ensures !IsNull() && fresh(data)
      ensures GetWidth() == width && GetHeight() == height
      ensures colorDepth == depth && maskColor == mask
    {
      data := new int[height, width];
      colorDepth := depth;
      maskColor := mask;
    }

    constructor Empty()
      ensures IsNull()
    {
      data := null;
      colorDepth := 0;
      maskColor := 0;
    }

    /** Checks if the bitmap cannot be used. */
    predicate IsNull()
      ensures IsNull() <==> data == null
    {
      data == null
    }

    function GetWidth(): (w: nat)
      requires !IsNull()
      ensures w == data.Length1
    {
      data.Length1
    }

    function GetHeight(): (h: nat)
      requires !IsNull()
      ensures h == data.Length0
    {
      data.Length0
    }

    /** Zero size: either the width or the height (or both) is zero. */
    predicate IsEmpty()
      requires !IsNull()
      ensures IsEmpty() <==> data.Length0 == 0 || data.Length1 == 0
    {
      GetWidth() == 0 || GetHeight() == 0
    }

    function GetSize(): (s: Size)
      requires !IsNull()
      ensures s.width == data.Length1 && s.height == data.Length0
    {
      Size(GetWidth(), GetHeight())
    }

    /** Bytes per pixel: the fewest whole bytes that hold colorDepth bits. */
    function GetBPP(): (bpp: nat)
      ensures bpp * 8 >= colorDepth
      ensures bpp == 0 || (bpp - 1) * 8 < colorDepth
    {
      (colorDepth + 7) / 8
    }

    /** Length of one scan line in bytes. */
    function GetLineLength(): (n: nat)
      requires !IsNull()
      ensures n == data.Length1 * GetBPP()
      ensures n * 8 >= data.Length1 * colorDepth
    {
      LineHoldsRow(GetWidth(), GetBPP(), colorDepth);
      GetWidth() * GetBPP()
    }

    /** Size of the whole pixel buffer in bytes: one line per row. */
    function GetDataSize(): (n: nat)
      requires !IsNull()
      ensures n == data.Length0 * GetLineLength()
    {
      GetWidth() * GetHeight() * GetBPP()
    }

    /** A scan line for reading: only rows inside [0, height) have one. */
    function GetScanLine(index: int): (line: Option<seq<int>>)
      requires !IsNull()
      reads data
      ensures line.Some? <==> 0 <= index < data.Length0
      ensures line.Some? ==> |line.value| == data.Length1
      ensures line.Some? ==> forall x :: 0 <= x < data.Length1 ==> line.value[x] == data[index, x]
    {
      if 0 <= index < GetHeight() then
        Some(seq(GetWidth(), x requires 0 <= x < GetWidth() reads data => data[index, x]))
      else None
    }

    /** A scan line for writing, given as the row of data it designates. */
    function GetScanLineForWriting(index: int): (row: Option<nat>)
      requires !IsNull()
      ensures row.Some? <==> 0 <= index < data.Length0
      ensures row.Some? ==> row.value == index
    {
      if 0 <= index < GetHeight() then Some(index) else None
    }
  }

  lemma LineHoldsRow(width: nat, bpp: nat, depth: nat)
    requires bpp * 8 >= depth
    ensures width * bpp * 8 >= width * depth
  {
    assert width * (bpp * 8) >= width * depth;
  }

  /** With a non-zero colour depth, a bitmap holds pixel data iff it is not empty. */
  lemma DataSizeZeroIffEmpty(b: Bitmap)
    requires !b.IsNull() && b.colorDepth > 0
    ensures b.GetDataSize() == 0 <==> b.IsEmpty()
  {
    var w, h, bpp := b.GetWidth(), b.GetHeight(), b.GetBPP();
    assert bpp >= 1;
    if w > 0 && h > 0 {
      assert w * h >= 1;
      assert w * h * bpp >= 1;
    }
  }
}
