/**
  Video frames (mssdk/lazyutil/lbframe.h): one buffer that holds the planes one after the other;
  and cropping and overlaying them (mssdk/lazyutil/lbscale.h).
 */
module Frames {
  import opened Pictures

  /** Three planes, or packed pixels of three or four bytes. */
  datatype Format = I420 | Packed(bytesPerPixel: nat)

  predicate IsFormat(format: Format) { format.Packed? ==> format.bytesPerPixel == 3 || format.bytesPerPixel == 4 }

  function FormatSize(format: Format, width: nat, height: nat): nat {
    match format
    case I420 => width * height * 3 / 2
    case Packed(n) => width * height * n
  }

  function PlaneSize(format: Format, width: nat, height: nat, index: nat): nat {
    match format
    case I420 => if index == 0 then width * height else if index < 3 then width * height / 4 else 0
    case Packed(n) => if index == 0 then width * height * n else 0
  }

  /** With even sizes the planes lie one after the other where fill_video puts them, and fill the buffer. */
  lemma PlanesFill(width: nat, height: nat)
    requires width % 2 == 0 && height % 2 == 0
    ensures Layout(FormatSize(I420, width, height), width, height, width * height, width * height * 5 / 4)
    ensures FormatSize(I420, width, height)
         == PlaneSize(I420, width, height, 0) + PlaneSize(I420, width, height, 1) + PlaneSize(I420, width, height, 2)
    ensures width * height * 5 / 4 == PlaneSize(I420, width, height, 0) + PlaneSize(I420, width, height, 1)
  {
    var a, b := width / 2, height / 2;
    assert width == 2 * a && height == 2 * b;
    assert width * height == 4 * (a * b);
    assert height * width == 4 * (a * b) && b * a == a * b;
  }

  lemma PackedSize(width: nat, height: nat, n: nat)
    ensures width * height * n == height * (width * n)
  {
    assert width * height == height * width;
  }

  lemma LayoutIsPlanes(n: nat, width: nat, height: nat, u: nat, v: nat)
    requires Layout(n, width, height, u, v)
    ensures Planes(n, width, height, width / 2, height / 2, u, v)
  {}

  /** The start of a rectangle in a chroma plane, as the code computes it. */
  lemma ChromaCorner(base: nat, width: nat, x: nat, y: nat)
    requires width % 2 == 0 && x % 2 == 0 && y % 2 == 0
    ensures base + y * width / 4 + x / 2 == Corner(base, width / 2, x / 2, y / 2)
  {
    var a, c := width / 2, y / 2;
    assert width == 2 * a && y == 2 * c;
    assert y * width == 4 * (c * a);
  }

  lemma PackedCorner(width: nat, n: nat, x: nat, y: nat)
    ensures (y * width + x) * n == Corner(0, width * n, x * n, y)
  {
    assert (y * width + x) * n == y * width * n + x * n;
    assert y * width * n == y * (width * n);
  }

  lemma PackedWidth(width: nat, n: nat, x: nat, w: nat)
    requires x + w <= width
    ensures x * n + w * n <= width * n
  {
    assert x * n + w * n == (x + w) * n;
  }

  /** Where a copying loop starts in the first plane. */
  method StartIn(width: nat, x: nat, y: nat) returns (start: nat)
    ensures start == Corner(0, width, x, y)
  {
    start := y * width + x;
  }

  /** Where a copying loop starts in a chroma plane. */
  method ChromaStartIn(plane: nat, width: nat, x: nat, y: nat) returns (start: nat)
    requires width % 2 == 0 && x % 2 == 0 && y % 2 == 0
    ensures start == Corner(plane, width / 2, x / 2, y / 2)
  {
    start := plane + y * width / 4 + x / 2;
    ChromaCorner(plane, width, x, y);
  }

  /** Where a copying loop starts in packed pixels. */
  method PackedStartIn(width: nat, n: nat, x: nat, y: nat) returns (start: nat)
    ensures start == Corner(0, width * n, x * n, y)
  {
    start := (y * width + x) * n;
    PackedCorner(width, n, x, y);
  }

  /** memcpy. */
  method CopyRow(dst: array<Byte>, to: nat, src: array<Byte>, from: nat, n: nat)
    requires dst != src && to + n <= dst.Length && from + n <= src.Length
    modifies dst
    ensures dst[..] == Spliced(old(dst[..]), to, Slice(src[..], from, n))
  {
    forall i | 0 <= i < n {
      dst[to + i] := src[from + i];
    }
    assert dst[..] == Spliced(old(dst[..]), to, Slice(src[..], from, n));
  }

  /** A loop over rows: both pointers advance by their line sizes. */
  method CopyRows(dst: array<Byte>, to: nat, dstLine: nat, src: array<Byte>, from: nat, srcLine: nat, w: nat, h: nat)
    requires dst != src && Inside(dst.Length, to, dstLine, w, h) && Inside(src.Length, from, srcLine, w, h)
    modifies dst
    ensures dst[..] == SplicedRows(old(dst[..]), to, dstLine, w, RowsOf(src[..], from, srcLine, w, h))
  {
    hide Off, Slice, Spliced, Inside;
    var pdst, psrc := to, from;
    ghost var before, rows := dst[..], RowsOf(src[..], from, srcLine, w, h);
    NoOff(dst.Length, to, dstLine, w);
    NoOff(src.Length, from, srcLine, w);
    for i := 0 to h
      invariant pdst == Off(to, dstLine, i) && psrc == Off(from, srcLine, i) && src[..] == old(src[..])
      invariant Inside(|before|, to, dstLine, w, i) && dst[..] == SplicedRows(before, to, dstLine, w, rows[..i])
    {
      RowInside(dst.Length, to, dstLine, w, h, i);
      RowInside(src.Length, from, srcLine, w, h, i);
      if i + 1 < h { RowInside(dst.Length, to, dstLine, w, h, i + 1); }
      RowAt(src[..], from, srcLine, w, h, i);
      CopyRow(dst, pdst, src, psrc, w);
      assert rows[..i + 1][..i] == rows[..i];
      OffStep(to, dstLine, i);
      OffStep(from, srcLine, i);
      psrc := psrc + srcLine;
      pdst := pdst + dstLine;
    }
    assert rows[..h] == rows;
  }

  lemma NoOff(n: nat, start: nat, stride: nat, w: nat)
    ensures Off(start, stride, 0) == start && Inside(n, start, stride, w, 0)
  {}

  /** The part of a frame that a request to crop really cuts out: even numbers, and inside the frame. */
  datatype Cut = Cut(x: nat, y: nat, w: nat, h: nat)

  function CutOf(width: nat, height: nat, x: nat, y: nat, w: nat, h: nat): (c: Cut)
    requires x <= width && y <= height
    ensures c.x + c.w <= width && c.y + c.h <= height
    ensures c.x % 2 == 0 && c.y % 2 == 0 && c.w % 2 == 0 && c.h % 2 == 0
  {
    var cx, cy, cw, ch := x - x % 2, y - y % 2, w - w % 2, h - h % 2;
    var aw := if width - cx > cw then cw else width - cx;
    var ah := if height - cy > ch then ch else height - cy;
    Cut(cx, cy, aw - aw % 2, ah - ah % 2)
  }

  /** The cut starts at the even place before the one asked for, and is the largest even size that fits and is not too large. */
  lemma CutMeans(width: nat, height: nat, x: nat, y: nat, w: nat, h: nat, n: nat)
    requires x <= width && y <= height && n % 2 == 0
    ensures var c := CutOf(width, height, x, y, w, h);
            c.x <= x < c.x + 2 && c.y <= y < c.y + 2 && c.w <= w && c.h <= h
            && (n <= w && c.x + n <= width ==> n <= c.w) && (n <= h && c.y + n <= height ==> n <= c.h)
  {}

  class Frame {
    var format: Format
    var width: nat
    var height: nat
    var data: array<Byte>

    // Where the second and the third plane start, and the line sizes.
    var u: nat
    var v: nat
    var line0: nat
    var line1: nat
    var line2: nat
    var borrowed: bool

    /** The layout that fill_video makes: no gaps between rows or planes. */
    ghost predicate Tight()
      reads this
    {
      IsFormat(format)
      && match format
         case I420 => Layout(data.Length, width, height, u, v) && line0 == width && line1 == line2 == width / 2
         case Packed(n) => line0 == width * n && data.Length == height * line0
    }

    lemma PlanesInside()
      requires Tight()
      ensures Inside(data.Length, 0, line0, line0, height)
      ensures format.I420? ==> line0 == width && Inside(data.Length, u, width / 2, width / 2, height / 2)
                               && Inside(data.Length, v, width / 2, width / 2, height / 2)
    {
      match format
      case I420 => LayoutInside(data.Length, width, height, u, v);
      case Packed(_) => TightInside(data.Length, 0, line0, height);
    }

    /** The rows of the first plane: luma, or packed pixels. */
    ghost function Y(): (r: Rows)
      reads this, data
      requires Tight()
      ensures |r| == height && forall i :: 0 <= i < height ==> |r[i]| == line0
    {
      PlanesInside();
      RowsOf(data[..], 0, line0, line0, height)
    }

    ghost function U(): (r: Rows)
      reads this, data
      requires Tight() && format.I420?
      ensures |r| == height / 2 && forall i :: 0 <= i < height / 2 ==> |r[i]| == width / 2
    {
      PlanesInside();
      RowsOf(data[..], u, width / 2, width / 2, height / 2)
    }

    ghost function V(): (r: Rows)
      reads this, data
      requires Tight() && format.I420?
      ensures |r| == height / 2 && forall i :: 0 <= i < height / 2 ==> |r[i]| == width / 2
    {
      PlanesInside();
      RowsOf(data[..], v, width / 2, width / 2, height / 2)
    }

    /** Where the chroma planes start: behind the luma plane, and behind each other. */
    lemma PlaneStarts()
      requires Tight() && format.I420?
      ensures u == width * height && v == width * height * 5 / 4
    {
      PlanesFill(width, height);
    }

    /** Luma comes first, row by row. */
    lemma LumaPixel(i: nat, j: nat)
      requires Tight() && format.I420? && i < height && j < width
      ensures Off(0, line0, i) + j < data.Length && Y()[i][j] == data[Off(0, line0, i) + j]
    {
      hide RowsOf, Inside, Layout, Off;
      PlanesInside();
      RowAt(data[..], 0, line0, line0, height, i);
    }

    /** The chroma planes are half as wide and half as high. */
    lemma UPixel(i: nat, j: nat)
      requires Tight() && format.I420? && i < height / 2 && j < width / 2
      ensures line1 == width / 2 && Off(u, line1, i) + j < data.Length && U()[i][j] == data[Off(u, line1, i) + j]
    {
      hide RowsOf, Inside, Layout, Off;
      PlanesInside();
      RowAt(data[..], u, line1, line1, height / 2, i);
    }

    lemma VPixel(i: nat, j: nat)
      requires Tight() && format.I420? && i < height / 2 && j < width / 2
      ensures line2 == width / 2 && Off(v, line2, i) + j < data.Length && V()[i][j] == data[Off(v, line2, i) + j]
    {
      hide RowsOf, Inside, Layout, Off;
      PlanesInside();
      RowAt(data[..], v, line2, line2, height / 2, i);
    }

    /** fill_video: the frame takes over the buffer. */
    constructor FillVideo(f: Format, w: nat, h: nat, buffer: array<Byte>, isBorrowed: bool)
      requires IsFormat(f) && buffer.Length == FormatSize(f, w, h) && (f.I420? ==> w % 2 == 0 && h % 2 == 0)
      ensures Tight() && format == f && width == w && height == h && data == buffer && borrowed == isBorrowed
    {
      format, width, height, data, borrowed := f, w, h, buffer, isBorrowed;
      if f.I420? { PlanesFill(w, h); } else { PackedSize(w, h, f.bytesPerPixel); }
      if f.I420? {
        line0, line1, line2 := w, w / 2, w / 2;
        u, v := w * h, w * h * 5 / 4;
      } else {
        line0, line1, line2 := w * f.bytesPerPixel, 0, 0;
        u, v := 0, 0;
      }
    }

    /** crop of an I420 frame: the cut part of each plane goes into a new buffer. */
    method CropPlanes(x: nat, y: nat, w: nat, h: nat)
      requires Tight() && format.I420? && x <= width && y <= height
      modifies this
      ensures Tight() && format == old(format) && fresh(data) && !borrowed
      ensures var c := CutOf(old(width), old(height), x, y, w, h);
              width == c.w && height == c.h && Y() == Cropped(old(Y()), c.x, c.y, c.w, c.h)
              && U() == Cropped(old(U()), c.x / 2, c.y / 2, c.w / 2, c.h / 2)
                && V() == Cropped(old(V()), c.x / 2, c.y / 2, c.w / 2, c.h / 2)
    {
      hide Layout, Cropped, RowsOf, Inside, CutOf;
      var c := CutOf(width, height, x, y, w, h);
      EvenHalves(width, height, c);
      PlanesFill(c.w, c.h);
      var buffer := new Byte[c.w * c.h * 3 / 2];
      CutPlanes(buffer, c, c.w * c.h, c.w * c.h * 5 / 4);
      data := buffer;
      u, v := c.w * c.h, c.w * c.h * 5 / 4;
      line0, line1, line2 := c.w, c.w / 2, c.w / 2;
      width, height := c.w, c.h;
      borrowed := false;
    }

    lemma EvenHalves(w: nat, h: nat, c: Cut)
      requires Layout(data.Length, w, h, u, v) && c.x + c.w <= w && c.y + c.h <= h
      ensures c.x / 2 + c.w / 2 <= w / 2 && c.y / 2 + c.h / 2 <= h / 2
    {}

    /** The three copying loops of crop. */
    method CutPlanes(dst: array<Byte>, c: Cut, u': nat, v': nat)
      requires Tight() && format.I420? && dst != data && Layout(dst.Length, c.w, c.h, u', v')
      requires c.x + c.w <= width && c.y + c.h <= height && c.x % 2 == 0 && c.y % 2 == 0
      requires c.x / 2 + c.w / 2 <= width / 2 && c.y / 2 + c.h / 2 <= height / 2
      modifies dst
      ensures Inside(dst.Length, 0, c.w, c.w, c.h)
      ensures Inside(dst.Length, u', c.w / 2, c.w / 2, c.h / 2) && Inside(dst.Length, v', c.w / 2, c.w / 2, c.h / 2)
      ensures RowsOf(dst[..], 0, c.w, c.w, c.h) == Cropped(Y(), c.x, c.y, c.w, c.h)
      ensures RowsOf(dst[..], u', c.w / 2, c.w / 2, c.h / 2) == Cropped(U(), c.x / 2, c.y / 2, c.w / 2, c.h / 2)
      ensures RowsOf(dst[..], v', c.w / 2, c.w / 2, c.h / 2) == Cropped(V(), c.x / 2, c.y / 2, c.w / 2, c.h / 2)
    {
      hide Off, RowsOf, SplicedRows, Inside, Cropped, Corner, Layout, Wide;
      LayoutInside(dst.Length, c.w, c.h, u', v');
      EvenWidth();
      var psrc0 := StartIn(width, c.x, c.y);
      var psrc1 := ChromaStartIn(u, width, c.x, c.y);
      var psrc2 := ChromaStartIn(v, width, c.x, c.y);
      ghost var ys, us, vs := PlanesToRead(c);
      PlanesCopied(dst[..], c.w, c.h, u', v', ys, us, vs);
      CopyRows(dst, 0, c.w, data, psrc0, line0, c.w, c.h);
      CopyRows(dst, u', c.w / 2, data, psrc1, line1, c.w / 2, c.h / 2);
      CopyRows(dst, v', c.w / 2, data, psrc2, line2, c.w / 2, c.h / 2);
    }

    /** What the three loops read is the cut part of each plane. */
    lemma PlanesToRead(c: Cut) returns (ys: Rows, us: Rows, vs: Rows)
      requires Tight() && format.I420? && c.x + c.w <= width && c.y + c.h <= height
      requires c.x / 2 + c.w / 2 <= width / 2 && c.y / 2 + c.h / 2 <= height / 2
      ensures line0 == width && line1 == line2 == width / 2
      ensures ys == Cropped(Y(), c.x, c.y, c.w, c.h) && us == Cropped(U(), c.x / 2, c.y / 2, c.w / 2, c.h / 2)
      ensures vs == Cropped(V(), c.x / 2, c.y / 2, c.w / 2, c.h / 2)
      ensures Wide(ys, c.w) && Wide(us, c.w / 2) && Wide(vs, c.w / 2)
      ensures Inside(data.Length, Corner(0, width, c.x, c.y), width, c.w, c.h)
      ensures Inside(data.Length, Corner(u, width / 2, c.x / 2, c.y / 2), width / 2, c.w / 2, c.h / 2)
      ensures Inside(data.Length, Corner(v, width / 2, c.x / 2, c.y / 2), width / 2, c.w / 2, c.h / 2)
      ensures RowsOf(data[..], Corner(0, width, c.x, c.y), width, c.w, c.h) == ys
      ensures RowsOf(data[..], Corner(u, width / 2, c.x / 2, c.y / 2), width / 2, c.w / 2, c.h / 2) == us
      ensures RowsOf(data[..], Corner(v, width / 2, c.x / 2, c.y / 2), width / 2, c.w / 2, c.h / 2) == vs
    {
      PlanesInside();
      hide Off, RowsOf, Inside, Cropped, Corner, Layout, Wide;
      ys := Cropped(Y(), c.x, c.y, c.w, c.h);
      us := Cropped(U(), c.x / 2, c.y / 2, c.w / 2, c.h / 2);
      vs := Cropped(V(), c.x / 2, c.y / 2, c.w / 2, c.h / 2);
      CroppedWide(Y(), c.x, c.y, c.w, c.h);
      CroppedWide(U(), c.x / 2, c.y / 2, c.w / 2, c.h / 2);
      CroppedWide(V(), c.x / 2, c.y / 2, c.w / 2, c.h / 2);
      ReadingCrops(data[..], 0, width, height, c.x, c.y, c.w, c.h);
      ReadingCrops(data[..], u, width / 2, height / 2, c.x / 2, c.y / 2, c.w / 2, c.h / 2);
      ReadingCrops(data[..], v, width / 2, height / 2, c.x / 2, c.y / 2, c.w / 2, c.h / 2);
    }

    lemma EvenWidth()
      requires Tight() && format.I420?
      ensures width % 2 == 0 && height % 2 == 0
    {}

    /** overlay of one I420 frame on this one. */
    method Overlay(src: Frame, x: nat, y: nat)
      requires Tight() && src.Tight() && format.I420? && src.format.I420? && data != src.data
      requires x + src.width <= width && y + src.height <= height && x % 2 == 0 && y % 2 == 0
      modifies data
      ensures Tight() && Y() == Overlaid(old(Y()), old(src.Y()), x, y)
      ensures U() == Overlaid(old(U()), old(src.U()), x / 2, y / 2) && V() == Overlaid(old(V()), old(src.V()), x / 2, y / 2)
    {
      PlanesInside();
      src.PlanesInside();
      EvenWidth();
      src.EvenWidth();
      hide Off, RowsOf, SplicedRows, Inside, Overlaid, Corner, Layout, Planes;
      ghost var s := data[..];
      assert Planes(|s|, width, height, width / 2, height / 2, u, v) by { LayoutIsPlanes(|s|, width, height, u, v); }
      PlanesOverlaid(s, width, height, width / 2, height / 2, u, v, x, y, src.width, x / 2, y / 2, src.width / 2, src.Y(), src.U(), src.V());
      var pdst := StartIn(width, x, y);
      CopyRows(data, pdst, line0, src.data, 0, src.line0, src.width, src.height);
      pdst := ChromaStartIn(u, width, x, y);
      CopyRows(data, pdst, line1, src.data, src.u, src.line1, src.width / 2, src.height / 2);
      pdst := ChromaStartIn(v, width, x, y);
      CopyRows(data, pdst, line2, src.data, src.v, src.line2, src.width / 2, src.height / 2);
    }

    /** crop of a frame of packed pixels. */
    method CropPacked(x: nat, y: nat, w: nat, h: nat)
      requires Tight() && format.Packed? && x <= width && y <= height
      modifies this
      ensures Tight() && format == old(format) && fresh(data) && !borrowed
      ensures var c, n := CutOf(old(width), old(height), x, y, w, h), format.bytesPerPixel;
              width == c.w && height == c.h && c.x * n + c.w * n <= old(line0)
              && Y() == Cropped(old(Y()), c.x * n, c.y, c.w * n, c.h)
    {
      hide RowsOf, Inside, Cropped, Corner, CutOf;
      var c, n := CutOf(width, height, x, y, w, h), format.bytesPerPixel;
      PackedWidth(width, n, c.x, c.w);
      PackedSize(c.w, c.h, n);
      var buffer := new Byte[c.w * c.h * n];
      var psrc := PackedStartIn(width, n, c.x, c.y);
      CutPacked(buffer, psrc, c.x * n, c.y, c.w * n, c.h);
      data := buffer;
      line0 := c.w * n;
      width, height := c.w, c.h;
      borrowed := false;
    }

    /** The copying loop of crop for packed pixels: a rectangle of bytes. */
    method CutPacked(dst: array<Byte>, psrc: nat, x: nat, y: nat, w: nat, h: nat)
      requires Tight() && dst != data && dst.Length == h * w && psrc == Corner(0, line0, x, y)
      requires x + w <= line0 && y + h <= height
      modifies dst
      ensures Inside(dst.Length, 0, w, w, h) && RowsOf(dst[..], 0, w, w, h) == Cropped(Y(), x, y, w, h)
    {
      PlanesInside();
      TightInside(dst.Length, 0, w, h);
      hide Off, RowsOf, SplicedRows, Inside, Cropped, Corner, Wide;
      ghost var rows := Cropped(Y(), x, y, w, h);
      ReadingCrops(data[..], 0, line0, height, x, y, w, h);
      CroppedWide(Y(), x, y, w, h);
      CopiedRows(dst[..], 0, w, w, rows);
      CopyRows(dst, 0, w, data, psrc, line0, w, h);
    }
  }

  /** Overlaying a frame and cropping the same rectangle out again gives back all three of its planes. */
  method OverlayThenCrop(dst: Frame, src: Frame, x: nat, y: nat)
    requires dst.Tight() && src.Tight() && dst.format.I420? && src.format.I420? && dst != src && dst.data != src.data
    requires x + src.width <= dst.width && y + src.height <= dst.height && x % 2 == 0 && y % 2 == 0
    modifies dst, dst.data
    ensures dst.Tight() && dst.format.I420? && src.Tight() && src.format.I420?
    ensures dst.width == src.width && dst.height == src.height && dst.Y() == src.Y() && dst.U() == src.U() && dst.V() == src.V()
    ensures src.Y() == old(src.Y()) && src.U() == old(src.U()) && src.V() == old(src.V())
  {
    hide RowsOf, Inside, Layout, Overlaid, Cropped;
    ghost var y0, u0, v0 := dst.Y(), dst.U(), dst.V();
    dst.Overlay(src, x, y);
    dst.EvenWidth();
    src.EvenWidth();
    CropUndoesOverlay(y0, src.Y(), x, y, src.width);
    CropUndoesOverlay(u0, src.U(), x / 2, y / 2, src.width / 2);
    CropUndoesOverlay(v0, src.V(), x / 2, y / 2, src.width / 2);
    dst.CropPlanes(x, y, src.width, src.height);
  }
}
