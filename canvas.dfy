/**
 * The pixel canvas (src/canvas.rs): a `width * height` buffer of colors,
 * addressed row-major at `width * y + x` and written in place, and the
 * flattening of that buffer into the RGB byte stream handed to the PNG encoder.
 */
module Canvases {
  import opened Colors

  /**
   * The flat position of pixel `(x, y)`: `width * y + x`. For an in-row column
   * the row and column are recovered from it by division by the width.
   */
  function Offset(width: nat, x: nat, y: nat): (i: nat)
    ensures x < width ==> i / width == y && i % width == x
  {
    if x < width then RowMajorDivMod(width, x, y); width * y + x
    else width * y + x
  }

  /** Euclidean division undoes the row-major layout. */
  lemma {:induction false} RowMajorDivMod(width: nat, x: nat, y: nat)
    requires x < width
    ensures (width * y + x) / width == y && (width * y + x) % width == x
  {
    var i := width * y + x;
    var q, r := i / width, i % width;
    assert i == width * q + r;
    if q < y {
      assert width * (q + 1) == width * q + width;
      MulMonotone(width, q + 1, y);
      assert false;
    } else if y < q {
      assert width * (y + 1) == width * y + width;
      MulMonotone(width, y + 1, q);
      assert false;
    }
  }

  /** A pixel inside the grid has an offset inside the buffer. */
  lemma {:induction false} OffsetInBounds(width: nat, height: nat, x: nat, y: nat)
    requires x < width && y < height
    ensures Offset(width, x, y) < width * height
  {
    calc {
      Offset(width, x, y);
      <  width * y + width;
      == width * (y + 1);
      <= { MulMonotone(width, y + 1, height); }
         width * height;
    }
  }

  /** An in-row pixel whose offset is inside the buffer lies in a row of the grid. */
  lemma {:induction false} InRowPixelInGrid(width: nat, height: nat, x: nat, y: nat)
    requires x < width && Offset(width, x, y) < width * height
    ensures y < height && width * y + width <= width * height
  {
    if height <= y {
      MulMonotone(width, height, y);
      assert false;
    }
    assert width * (y + 1) == width * y + width;
    MulMonotone(width, y + 1, height);
  }

  lemma MulMonotone(w: nat, a: nat, b: nat)
    requires a <= b
    ensures w * a <= w * b
  {
  }

  /** Pixels with in-row columns have distinct offsets: the layout is one-to-one. */
  lemma {:induction false} OffsetInjective(width: nat, x1: nat, y1: nat, x2: nat, y2: nat)
    requires x1 < width && x2 < width
    requires Offset(width, x1, y1) == Offset(width, x2, y2)
    ensures x1 == x2 && y1 == y2
  {
  }

  /** Only the flat offset is checked, so column `x + width` of a row is column `x` of the next row. */
  lemma {:induction false} ColumnOverflowWraps(width: nat, x: nat, y: nat)
    ensures Offset(width, x + width, y) == Offset(width, x, y + 1)
  {
    assert width * (y + 1) == width * y + width;
  }

  /** The `flat_map` of `to_rgb` over the pixels, in buffer order. */
  function FlatMapRgb(pixels: seq<Color>): (bytes: seq<Byte>)
    ensures |bytes| == 3 * |pixels|
  {
    if pixels == [] then [] else ToRgb(pixels[0]) + FlatMapRgb(pixels[1..])
  }

  /** Bytes `3i`, `3i+1`, `3i+2` of the stream are `to_rgb` of pixel `i`. */
  lemma {:induction false} FlatMapRgbLayout(pixels: seq<Color>, i: nat)
    requires i < |pixels|
    ensures FlatMapRgb(pixels)[3 * i..3 * i + 3] == ToRgb(pixels[i])
  {
    var head := ToRgb(pixels[0]);
    var rest := FlatMapRgb(pixels[1..]);
    assert FlatMapRgb(pixels) == head + rest;
    if i > 0 {
      FlatMapRgbLayout(pixels[1..], i - 1);
      assert (head + rest)[3 * i..3 * i + 3] == rest[3 * (i - 1)..3 * (i - 1) + 3];
    }
  }

  class Canvas {
    const width: nat
    const height: nat
    /** The pixels, row after row. */
    const pixels: array<Color>

    ghost predicate Valid() {
      pixels.Length == width * height
    }

    /** `new(w, h)`: `w * h` pixels, all the default color. */
    constructor (w: nat, h: nat)
      ensures Valid() && width == w && height == h && fresh(pixels)
      ensures forall i :: 0 <= i < pixels.Length ==> pixels[i] == Default()
    {
      width := w;
      height := h;
      pixels := new Color[w * h](_ => Default());
    }

    /** `Index`: the pixel at `(x, y)`; the source panics when the flat offset is outside the buffer. */
    function At(x: nat, y: nat): (c: Color)
      reads pixels
      requires Valid() && Offset(width, x, y) < pixels.Length
      ensures x < width ==> y < height && width * y + width <= pixels.Length && c == pixels[width * y..width * y + width][x]
    {
      var i := Offset(width, x, y);
      if x < width then
        InRowPixelInGrid(width, height, x, y);
        assert pixels[width * y..width * y + width][x] == pixels[i];
        pixels[i]
      else pixels[i]
    }

    /**
     * `IndexMut` followed by an assignment: the buffer entry at the flat offset of
     * `(x, y)` becomes `c` and no other entry changes, so for an in-row column no
     * other pixel changes.
     */
    method Set(x: nat, y: nat, c: Color)
      requires Valid() && Offset(width, x, y) < pixels.Length
      modifies pixels
      ensures pixels[..] == old(pixels[..])[Offset(width, x, y) := c]
      ensures At(x, y) == c
      ensures x < width ==> forall i: nat, j: nat :: i < width && Offset(width, i, j) < pixels.Length && (i != x || j != y)
                              ==> At(i, j) == old(At(i, j))
    {
      pixels[Offset(width, x, y)] := c;
      if x < width {
        forall i: nat, j: nat | i < width && Offset(width, i, j) < pixels.Length && (i != x || j != y)
          ensures Offset(width, i, j) != Offset(width, x, y)
        {
          if Offset(width, i, j) == Offset(width, x, y) {
            OffsetInjective(width, i, j, x, y);
          }
        }
      }
    }

    /**
     * The pixel data of `save_to`: three bytes per pixel, pixel `i` of the
     * buffer giving bytes `3i` to `3i+2` as its `to_rgb`.
     */
    function PixelData(): (bytes: seq<Byte>)
      reads pixels
      requires Valid()
      ensures |bytes| == 3 * (width * height)
      ensures forall i :: 0 <= i < pixels.Length ==> bytes[3 * i..3 * i + 3] == ToRgb(pixels[i])
    {
      var s := pixels[..];
      assert forall i :: 0 <= i < pixels.Length ==> FlatMapRgb(s)[3 * i..3 * i + 3] == ToRgb(s[i]) by {
        forall i | 0 <= i < pixels.Length
          ensures FlatMapRgb(s)[3 * i..3 * i + 3] == ToRgb(s[i])
        {
          FlatMapRgbLayout(s, i);
        }
      }
      FlatMapRgb(s)
    }
  }

  /** A column one past the row reads the first pixel of the next row. */
  lemma ColumnOverflowAliases(canvas: Canvas, y: nat)
    requires canvas.Valid() && 0 < canvas.width && y + 1 < canvas.height
    ensures Offset(canvas.width, canvas.width, y) < canvas.pixels.Length
    ensures canvas.At(canvas.width, y) == canvas.At(0, y + 1)
  {
    ColumnOverflowWraps(canvas.width, 0, y);
    OffsetInBounds(canvas.width, canvas.height, 0, y + 1);
  }

  /**
   * Every column past the row that passes the flat bounds check aliases a pixel
   * of the next row: `(x + width, y)` reads the same pixel as `(x, y + 1)`.
   */
  lemma OverflowingColumnAliases(canvas: Canvas, x: nat, y: nat)
    requires canvas.Valid() && Offset(canvas.width, x + canvas.width, y) < canvas.pixels.Length
    ensures Offset(canvas.width, x, y + 1) < canvas.pixels.Length
    ensures canvas.At(x + canvas.width, y) == canvas.At(x, y + 1)
  {
    ColumnOverflowWraps(canvas.width, x, y);
  }

  /** The tests `create_canvas` and `writing_pixels_to_canvas`. */
  method CreateAndWrite() returns (canvas: Canvas)
    ensures canvas.Valid() && canvas.width == 10 && canvas.height == 20
    ensures Eq(canvas.At(1, 2), Color(1.0, 0.0, 0.0))
    ensures forall x, y :: x < 10 && y < 20 && (x != 1 || y != 2) ==> Eq(canvas.At(x, y), Color(0.0, 0.0, 0.0))
  {
    canvas := new Canvas(10, 20);
    forall x: nat, y: nat | x < 10 && y < 20
      ensures Offset(10, x, y) < canvas.pixels.Length
    {
      OffsetInBounds(10, 20, x, y);
    }
    canvas.Set(1, 2, Color(1.0, 0.0, 0.0));
  }
}
