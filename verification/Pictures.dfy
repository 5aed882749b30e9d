/**
  Rows of pixels in one buffer: what copying rows into a buffer does, and cropping and overlaying
  as operations on rows.
 */
module Pictures {
  type Byte = bv8
  type Rows = seq<seq<Byte>>

  /** Where row `i` starts. */
  function Off(start: nat, stride: nat, i: nat): nat { start + i * stride }

  lemma OffStep(start: nat, stride: nat, i: nat)
    ensures Off(start, stride, i + 1) == Off(start, stride, i) + stride
  {}

  lemma {:induction false} OffMono(start: nat, stride: nat, i: nat, j: nat)
    requires i < j
    ensures Off(start, stride, i) + stride <= Off(start, stride, j)
  {
    hide Off;
    OffStep(start, stride, j - 1);
    if i < j - 1 { OffMono(start, stride, i, j - 1); }
  }

  /** Rows of width `w` that start `stride` apart lie inside a buffer of length `n`. */
  predicate Inside(n: nat, start: nat, stride: nat, w: nat, h: nat) { h == 0 || Off(start, stride, h - 1) + w <= n }

  lemma RowInside(n: nat, start: nat, stride: nat, w: nat, h: nat, i: nat)
    requires Inside(n, start, stride, w, h) && i < h
    ensures Off(start, stride, i) + w <= n && Inside(n, start, stride, w, i)
  {
    hide Off;
    if i < h - 1 { OffMono(start, stride, i, h - 1); }
    if i > 0 { OffMono(start, stride, i - 1, i); }
    if 0 < i < h - 1 { OffMono(start, stride, i - 1, h - 1); }
  }

  /** The `w` bytes from `from` on. */
  function Slice(s: seq<Byte>, from: nat, w: nat): (r: seq<Byte>)
    requires from + w <= |s|
    ensures |r| == w
  {
    s[from..from + w]
  }

  /** The rows that a copying loop reads: it starts at `start` and advances by `stride`. */
  function RowsOf(s: seq<Byte>, start: nat, stride: nat, w: nat, h: nat): (r: Rows)
    requires Inside(|s|, start, stride, w, h)
    ensures |r| == h && forall i :: 0 <= i < h ==> |r[i]| == w
  {
    if h == 0 then []
    else
      RowInside(|s|, start, stride, w, h, h - 1);
      RowsOf(s, start, stride, w, h - 1) + [Slice(s, Off(start, stride, h - 1), w)]
  }

  lemma {:induction false} RowAt(s: seq<Byte>, start: nat, stride: nat, w: nat, h: nat, i: nat)
    requires Inside(|s|, start, stride, w, h) && i < h
    ensures Off(start, stride, i) + w <= |s| && RowsOf(s, start, stride, w, h)[i] == Slice(s, Off(start, stride, i), w)
  {
    hide Off, Slice, Inside;
    RowInside(|s|, start, stride, w, h, i);
    if i < h - 1 {
      RowInside(|s|, start, stride, w, h, h - 1);
      RowAt(s, start, stride, w, h - 1, i);
    }
  }

  /** The buffer after a copy of `t` to `from`. */
  function Spliced(s: seq<Byte>, from: nat, t: seq<Byte>): (r: seq<Byte>)
    requires from + |t| <= |s|
    ensures |r| == |s|
  {
    s[..from] + t + s[from + |t|..]
  }

  predicate Wide(rows: Rows, w: nat) { forall i :: 0 <= i < |rows| ==> |rows[i]| == w }

  /** The buffer after a loop that copies rows to places that start `stride` apart. */
  function SplicedRows(s: seq<Byte>, start: nat, stride: nat, w: nat, rows: Rows): (r: seq<Byte>)
    requires Wide(rows, w) && Inside(|s|, start, stride, w, |rows|)
    ensures |r| == |s|
  {
    if rows == [] then s
    else
      var n := |rows| - 1;
      RowInside(|s|, start, stride, w, |rows|, n);
      Spliced(SplicedRows(s, start, stride, w, rows[..n]), Off(start, stride, n), rows[n])
  }

  lemma SliceAfter(s: seq<Byte>, from: nat, t: seq<Byte>, at: nat, w: nat)
    requires from + |t| <= |s| && at + w <= |s|
    ensures at == from && w == |t| ==> Slice(Spliced(s, from, t), at, w) == t
    ensures at + w <= from || from + |t| <= at ==> Slice(Spliced(s, from, t), at, w) == Slice(s, at, w)
  {
    var r := Spliced(s, from, t);
    assert forall k :: 0 <= k < |s| && !(from <= k < from + |t|) ==> r[k] == s[k];
    assert forall k :: 0 <= k < |t| ==> r[from + k] == t[k];
    hide Spliced;
    if at + w <= from || from + |t| <= at {
      assert forall k :: 0 <= k < w ==> Slice(r, at, w)[k] == Slice(s, at, w)[k];
    }
  }

  /** What was copied is where it was copied to. */
  lemma {:induction false} CopiedRows(s: seq<Byte>, start: nat, stride: nat, w: nat, rows: Rows)
    requires Wide(rows, w) && w <= stride && Inside(|s|, start, stride, w, |rows|)
    ensures RowsOf(SplicedRows(s, start, stride, w, rows), start, stride, w, |rows|) == rows
  {
    hide Off, Slice, Inside, Spliced;
    if rows != [] {
      var n := |rows| - 1;
      var front := rows[..n];
      RowInside(|s|, start, stride, w, |rows|, n);
      CopiedRows(s, start, stride, w, front);
      var before := SplicedRows(s, start, stride, w, front);
      var after := SplicedRows(s, start, stride, w, rows);
      SliceAfter(before, Off(start, stride, n), rows[n], Off(start, stride, n), w);
      forall i | 0 <= i < n ensures Off(start, stride, i) + w <= Off(start, stride, n) { OffMono(start, stride, i, n); }
      SameRows(before, after, start, stride, w, n, Off(start, stride, n), rows[n]);
      assert rows == front + [rows[n]];
    }
  }

  /** Rows before the place of a copy stay. */
  lemma {:induction false} SameRows(s: seq<Byte>, s': seq<Byte>, start: nat, stride: nat, w: nat, h: nat, from: nat, t: seq<Byte>)
    requires from + |t| <= |s| && s' == Spliced(s, from, t) && Inside(|s|, start, stride, w, h)
    requires forall i :: 0 <= i < h ==> Off(start, stride, i) + w <= from
    ensures RowsOf(s', start, stride, w, h) == RowsOf(s, start, stride, w, h)
  {
    hide Slice, Inside, Spliced, Off;
    if h > 0 {
      RowInside(|s|, start, stride, w, h, h - 1);
      SameRows(s, s', start, stride, w, h - 1, from, t);
      SliceAfter(s, from, t, Off(start, stride, h - 1), w);
    }
  }

  /** A stretch of the buffer that no copied row touches stays as it was. */
  lemma {:induction false} Untouched(s: seq<Byte>, start: nat, stride: nat, w: nat, rows: Rows, at: nat, n: nat)
    requires Wide(rows, w) && Inside(|s|, start, stride, w, |rows|) && at + n <= |s|
    requires forall i :: 0 <= i < |rows| ==> at + n <= Off(start, stride, i) || Off(start, stride, i) + w <= at
    ensures Slice(SplicedRows(s, start, stride, w, rows), at, n) == Slice(s, at, n)
  {
    hide Off, Slice, Inside, Spliced;
    if rows != [] {
      var k := |rows| - 1;
      RowInside(|s|, start, stride, w, |rows|, k);
      Untouched(s, start, stride, w, rows[..k], at, n);
      SliceAfter(SplicedRows(s, start, stride, w, rows[..k]), Off(start, stride, k), rows[k], at, n);
    }
  }

  // ---- Cropping and overlaying rows ----

  function CroppedRow(row: seq<Byte>, x: nat, w: nat): (r: seq<Byte>)
    requires x + w <= |row|
    ensures |r| == w
  {
    row[x..x + w]
  }

  function Cropped(rows: Rows, x: nat, y: nat, w: nat, h: nat): (r: Rows)
    requires y + h <= |rows| && forall i :: 0 <= i < |rows| ==> x + w <= |rows[i]|
    ensures |r| == h
  {
    seq(h, i requires 0 <= i < h => CroppedRow(rows[y + i], x, w))
  }

  lemma CroppedWide(rows: Rows, x: nat, y: nat, w: nat, h: nat)
    requires y + h <= |rows| && forall i :: 0 <= i < |rows| ==> x + w <= |rows[i]|
    ensures Wide(Cropped(rows, x, y, w, h), w)
  {
    var r := Cropped(rows, x, y, w, h);
    assert forall i :: 0 <= i < h ==> r[i] == CroppedRow(rows[y + i], x, w);
  }

  function OverlaidRow(row: seq<Byte>, top: seq<Byte>, x: nat): (r: seq<Byte>)
    requires x + |top| <= |row|
    ensures |r| == |row|
  {
    row[..x] + top + row[x + |top|..]
  }

  function Overlaid(rows: Rows, top: Rows, x: nat, y: nat): (r: Rows)
    requires y + |top| <= |rows| && forall i, j :: 0 <= i < |rows| && 0 <= j < |top| ==> x + |top[j]| <= |rows[i]|
    ensures |r| == |rows| && forall i :: 0 <= i < |rows| ==> |r[i]| == |rows[i]|
  {
    seq(|rows|, i requires 0 <= i < |rows| => if y <= i < y + |top| then OverlaidRow(rows[i], top[i - y], x) else rows[i])
  }

  /** Cropping the rectangle of an overlay gives back what was overlaid. */
  lemma CropUndoesOverlay(rows: Rows, top: Rows, x: nat, y: nat, w: nat)
    requires y + |top| <= |rows| && Wide(top, w) && forall i :: 0 <= i < |rows| ==> x + w <= |rows[i]|
    ensures Cropped(Overlaid(rows, top, x, y), x, y, w, |top|) == top
  {
    hide OverlaidRow, CroppedRow, Cropped, Overlaid;
    var r := Cropped(Overlaid(rows, top, x, y), x, y, w, |top|);
    forall i | 0 <= i < |top| ensures r[i] == top[i] {
      RowOfOverlay(rows, top, x, y, w, i);
    }
  }

  lemma RowOfOverlay(rows: Rows, top: Rows, x: nat, y: nat, w: nat, i: nat)
    requires y + |top| <= |rows| && Wide(top, w) && (forall k :: 0 <= k < |rows| ==> x + w <= |rows[k]|) && i < |top|
    ensures Cropped(Overlaid(rows, top, x, y), x, y, w, |top|)[i] == top[i]
  {
    hide OverlaidRow, CroppedRow;
    assert Overlaid(rows, top, x, y)[y + i] == OverlaidRow(rows[y + i], top[i], x);
    Middle(rows[y + i], top[i], x);
  }

  lemma Middle(row: seq<Byte>, top: seq<Byte>, x: nat)
    requires x + |top| <= |row|
    ensures CroppedRow(OverlaidRow(row, top, x), x, |top|) == top
  {}

  /** A cropped picture starts at (x, y). */
  lemma CroppedPixel(rows: Rows, x: nat, y: nat, w: nat, h: nat, i: nat, j: nat)
    requires y + h <= |rows| && (forall k :: 0 <= k < |rows| ==> x + w <= |rows[k]|) && i < h && j < w
    ensures |Cropped(rows, x, y, w, h)[i]| == w && Cropped(rows, x, y, w, h)[i][j] == rows[y + i][x + j]
  {
    hide CroppedRow;
    assert Cropped(rows, x, y, w, h)[i] == CroppedRow(rows[y + i], x, w);
    PartPixel(rows[y + i], x, w, j);
  }

  lemma PartPixel(row: seq<Byte>, x: nat, w: nat, j: nat)
    requires x + w <= |row| && j < w
    ensures CroppedRow(row, x, w)[j] == row[x + j]
  {}

  /** An overlaid picture shows the top one in its rectangle, which starts at (x, y). */
  lemma OverlaidPixel(rows: Rows, top: Rows, x: nat, y: nat, w: nat, i: nat, j: nat)
    requires y + |top| <= |rows| && Wide(top, w) && (forall k :: 0 <= k < |rows| ==> x + w <= |rows[k]|)
    requires i < |top| && j < w
    ensures Overlaid(rows, top, x, y)[y + i][x + j] == top[i][j]
  {
    hide OverlaidRow;
    assert Overlaid(rows, top, x, y)[y + i] == OverlaidRow(rows[y + i], top[i], x);
    LaidPixel(rows[y + i], top[i], x, j);
  }

  lemma LaidPixel(row: seq<Byte>, top: seq<Byte>, x: nat, j: nat)
    requires x + |top| <= |row| && j < |top|
    ensures OverlaidRow(row, top, x)[x + j] == top[j]
  {}

  /** An overlay changes no pixel outside its rectangle. */
  lemma OverlayStaysInside(rows: Rows, top: Rows, x: nat, y: nat, w: nat, i: nat, j: nat)
    requires y + |top| <= |rows| && Wide(top, w) && forall k :: 0 <= k < |rows| ==> x + w <= |rows[k]|
    requires i < |rows| && j < |rows[i]| && !(y <= i < y + |top| && x <= j < x + w)
    ensures Overlaid(rows, top, x, y)[i][j] == rows[i][j]
  {}

  /** Reading a rectangle out of tight rows is cropping them. */
  lemma ReadingCrops(s: seq<Byte>, base: nat, width: nat, height: nat, x: nat, y: nat, w: nat, h: nat)
    requires x + w <= width && y + h <= height && Inside(|s|, base, width, width, height)
    ensures Inside(|s|, Corner(base, width, x, y), width, w, h)
    ensures RowsOf(s, Corner(base, width, x, y), width, w, h) == Cropped(RowsOf(s, base, width, width, height), x, y, w, h)
  {
    RectangleInside(|s|, base, width, height, x, y, w, h);
    hide Off, Corner, Slice, RowsOf, Inside;
    var from := Corner(base, width, x, y);
    var r, all := RowsOf(s, from, width, w, h), RowsOf(s, base, width, width, height);
    forall i | 0 <= i < h ensures r[i] == CroppedRow(all[y + i], x, w) {
      RowAt(s, from, width, w, h, i);
      RowAt(s, base, width, width, height, y + i);
      RectangleRow(base, width, x, y, i);
      PartOfSlice(s, Off(base, width, y + i), width, x, w);
    }
  }

  lemma PartOfSlice(s: seq<Byte>, at: nat, width: nat, x: nat, w: nat)
    requires at + width <= |s| && x + w <= width
    ensures Slice(s, at + x, w) == CroppedRow(Slice(s, at, width), x, w)
  {
    var row := s[at..at + width];
    var part := row[x..x + w];
    assert forall k :: 0 <= k < w ==> part[k] == s[at + x + k];
  }

  /** Where the rectangle at (x, y) starts. */
  function Corner(base: nat, width: nat, x: nat, y: nat): nat { base + y * width + x }

  lemma RectangleRow(base: nat, width: nat, x: nat, y: nat, i: nat)
    ensures Off(Corner(base, width, x, y), width, i) == Off(base, width, y + i) + x
  {
    assert (y + i) * width == y * width + i * width;
  }

  lemma RectangleInside(n: nat, base: nat, width: nat, height: nat, x: nat, y: nat, w: nat, h: nat)
    requires x + w <= width && y + h <= height && Inside(n, base, width, width, height)
    ensures Inside(n, Corner(base, width, x, y), width, w, h)
  {
    if h > 0 {
      RectangleRow(base, width, x, y, h - 1);
      RowInside(n, base, width, width, height, y + h - 1);
    }
  }

  /** One row after rows were copied into a rectangle. */
  lemma WrittenRow(s: seq<Byte>, base: nat, width: nat, height: nat, x: nat, y: nat, w: nat, top: Rows, i: nat)
    requires x + w <= width && y + |top| <= height && Wide(top, w) && Inside(|s|, base, width, width, height) && i < height
    requires Inside(|s|, Corner(base, width, x, y), width, w, |top|)
    ensures Off(base, width, i) + width <= |s|
    ensures var row := Slice(s, Off(base, width, i), width);
            Slice(SplicedRows(s, Corner(base, width, x, y), width, w, top), Off(base, width, i), width)
            == if y <= i < y + |top| then OverlaidRow(row, top[i - y], x) else row
  {
    hide Off, Slice, OverlaidRow, SplicedRows, RowsOf, Inside, Corner;
    var from := Corner(base, width, x, y);
    var s' := SplicedRows(s, from, width, w, top);
    RowInside(|s|, base, width, width, height, i);
    var at := Off(base, width, i);
    if y <= i < y + |top| {
      CopiedRows(s, from, width, w, top);
      RowAt(s', from, width, w, |top|, i - y);
      RectangleRow(base, width, x, y, i - y);
      Aside(s, base, width, x, y, w, top, at, x, i);
      Aside(s, base, width, x, y, w, top, at + x + w, width - x - w, i);
      ThreeParts(s, s', at, x, top[i - y], width);
    } else {
      Aside(s, base, width, x, y, w, top, at, width, i);
    }
  }

  /** Copying rows into a rectangle of tight rows overlays them. */
  lemma WritingOverlays(s: seq<Byte>, base: nat, width: nat, height: nat, x: nat, y: nat, w: nat, top: Rows)
    requires x + w <= width && y + |top| <= height && Wide(top, w) && Inside(|s|, base, width, width, height)
    ensures Inside(|s|, Corner(base, width, x, y), width, w, |top|)
    ensures RowsOf(SplicedRows(s, Corner(base, width, x, y), width, w, top), base, width, width, height)
         == Overlaid(RowsOf(s, base, width, width, height), top, x, y)
  {
    hide Off, Slice, OverlaidRow, SplicedRows, RowsOf, Inside, Corner, Overlaid;
    RectangleInside(|s|, base, width, height, x, y, w, |top|);
    var s' := SplicedRows(s, Corner(base, width, x, y), width, w, top);
    var r, all := RowsOf(s', base, width, width, height), RowsOf(s, base, width, width, height);
    forall i | 0 <= i < height
      ensures r[i] == if y <= i < y + |top| then OverlaidRow(all[i], top[i - y], x) else all[i]
    {
      RowAt(s', base, width, width, height, i);
      RowAt(s, base, width, width, height, i);
      WrittenRow(s, base, width, height, x, y, w, top, i);
    }
    IsOverlaid(all, r, top, x, y, w);
  }

  lemma IsOverlaid(rows: Rows, r: Rows, top: Rows, x: nat, y: nat, w: nat)
    requires |r| == |rows| && y + |top| <= |rows| && Wide(top, w) && forall i :: 0 <= i < |rows| ==> x + w <= |rows[i]|
    requires forall i :: 0 <= i < |rows| ==> r[i] == if y <= i < y + |top| then OverlaidRow(rows[i], top[i - y], x) else rows[i]
    ensures r == Overlaid(rows, top, x, y)
  {}

  lemma ThreeParts(s: seq<Byte>, s': seq<Byte>, at: nat, x: nat, t: seq<Byte>, width: nat)
    requires |s| == |s'| && at + width <= |s| && x + |t| <= width
    requires Slice(s', at, x) == Slice(s, at, x) && Slice(s', at + x, |t|) == t
    requires Slice(s', at + x + |t|, width - x - |t|) == Slice(s, at + x + |t|, width - x - |t|)
    ensures Slice(s', at, width) == OverlaidRow(Slice(s, at, width), t, x)
  {
    var r := Slice(s', at, width);
    var row := Slice(s, at, width);
    assert r == Slice(s', at, x) + Slice(s', at + x, |t|) + Slice(s', at + x + |t|, width - x - |t|);
    assert row[..x] == Slice(s, at, x) && row[x + |t|..] == Slice(s, at + x + |t|, width - x - |t|);
  }

  /** A part of row `i` that lies beside the rectangle, or a row above or below it, stays. */
  lemma Aside(s: seq<Byte>, base: nat, width: nat, x: nat, y: nat, w: nat, top: Rows, at: nat, n: nat, i: nat)
    requires x + w <= width && Wide(top, w) && Inside(|s|, Corner(base, width, x, y), width, w, |top|) && at + n <= |s|
    requires Off(base, width, i) <= at && at + n <= Off(base, width, i) + width
    requires y <= i < y + |top| ==> at + n <= Off(base, width, i) + x || Off(base, width, i) + x + w <= at
    ensures Slice(SplicedRows(s, Corner(base, width, x, y), width, w, top), at, n) == Slice(s, at, n)
  {
    var from := Corner(base, width, x, y);
    forall k | 0 <= k < |top| ensures at + n <= Off(from, width, k) || Off(from, width, k) + w <= at {
      RectangleRow(base, width, x, y, k);
      hide Off;
      if y + k < i { OffMono(base, width, y + k, i); }
      if i < y + k { OffMono(base, width, i, y + k); }
    }
    Untouched(s, from, width, w, top, at, n);
  }

  // ---- Planes in one buffer ----

  /** Rows without gaps that fit into the buffer. */
  lemma TightInside(n: nat, start: nat, w: nat, h: nat)
    requires start + h * w <= n
    ensures Inside(n, start, w, w, h)
  {
    if h > 0 { OffStep(start, w, h - 1); }
  }

  /** The rows that lie between `lo` and `hi`. */
  predicate Between(start: nat, stride: nat, w: nat, h: nat, lo: nat, hi: nat) {
    forall i :: 0 <= i < h ==> lo <= Off(start, stride, i) && Off(start, stride, i) + w <= hi
  }

  lemma TightBetween(start: nat, w: nat, h: nat)
    ensures Between(start, w, w, h, start, start + h * w)
  {
    forall i | 0 <= i < h ensures start <= Off(start, w, i) && Off(start, w, i) + w <= start + h * w {
      OffMono(start, w, i, h);
    }
  }

  lemma RectangleBetween(base: nat, width: nat, height: nat, x: nat, y: nat, w: nat, h: nat)
    requires x + w <= width && y + h <= height
    ensures Between(Corner(base, width, x, y), width, w, h, base, base + height * width)
  {
    TightBetween(base, width, height);
    forall i | 0 <= i < h
      ensures base <= Off(Corner(base, width, x, y), width, i)
      ensures Off(Corner(base, width, x, y), width, i) + w <= base + height * width
    {
      RectangleRow(base, width, x, y, i);
    }
  }

  /** A plane is not touched by what is copied elsewhere. */
  lemma PlaneKept(s: seq<Byte>, start: nat, stride: nat, w: nat, rows: Rows, lo: nat, hi: nat, plane: nat, width: nat, height: nat)
    requires Wide(rows, w) && Inside(|s|, start, stride, w, |rows|) && Between(start, stride, w, |rows|, lo, hi)
    requires plane + height * width <= |s| && (plane + height * width <= lo || hi <= plane)
    ensures Inside(|s|, plane, width, width, height)
    ensures RowsOf(SplicedRows(s, start, stride, w, rows), plane, width, width, height) == RowsOf(s, plane, width, width, height)
  {
    TightInside(|s|, plane, width, height);
    TightBetween(plane, width, height);
    hide Off, Slice, SplicedRows, RowsOf, Inside;
    var s' := SplicedRows(s, start, stride, w, rows);
    var r, all := RowsOf(s', plane, width, width, height), RowsOf(s, plane, width, width, height);
    forall i | 0 <= i < height ensures r[i] == all[i] {
      RowAt(s', plane, width, width, height, i);
      RowAt(s, plane, width, width, height, i);
      Untouched(s, start, stride, w, rows, Off(plane, width, i), width);
    }
  }

  /** Three planes in a buffer, without gaps: one of full size and two of half the size. */
  predicate Layout(n: nat, w: nat, h: nat, u: nat, v: nat) {
    w % 2 == 0 && h % 2 == 0 && u == h * w && v == u + (h / 2) * (w / 2) && n == v + (h / 2) * (w / 2)
  }

  lemma LayoutInside(n: nat, w: nat, h: nat, u: nat, v: nat)
    requires Layout(n, w, h, u, v)
    ensures Inside(n, 0, w, w, h) && Inside(n, u, w / 2, w / 2, h / 2) && Inside(n, v, w / 2, w / 2, h / 2)
  {
    TightInside(n, 0, w, h);
    TightInside(n, u, w / 2, h / 2);
    TightInside(n, v, w / 2, h / 2);
  }

  /** The rows of the planes that are copied into a buffer one after the other are what was copied. */
  lemma PlanesCopied(s: seq<Byte>, w: nat, h: nat, u: nat, v: nat, ys: Rows, us: Rows, vs: Rows)
    requires Layout(|s|, w, h, u, v) && Wide(ys, w) && Wide(us, w / 2) && Wide(vs, w / 2)
    requires |ys| == h && |us| == h / 2 && |vs| == h / 2
    ensures Inside(|s|, 0, w, w, h) && Inside(|s|, u, w / 2, w / 2, h / 2) && Inside(|s|, v, w / 2, w / 2, h / 2)
    ensures var s1 := SplicedRows(s, 0, w, w, ys);
            var s2 := SplicedRows(s1, u, w / 2, w / 2, us);
            var s3 := SplicedRows(s2, v, w / 2, w / 2, vs);
            RowsOf(s3, 0, w, w, h) == ys && RowsOf(s3, u, w / 2, w / 2, h / 2) == us && RowsOf(s3, v, w / 2, w / 2, h / 2) == vs
  {
    LayoutInside(|s|, w, h, u, v);
    var cw, ch, size := w / 2, h / 2, (h / 2) * (w / 2);
    assert 0 + h * w == u && u + ch * cw == v && v + ch * cw == |s|;
    hide Inside, RowsOf, SplicedRows, Between, Layout, Wide;
    var s1 := SplicedRows(s, 0, w, w, ys);
    var s2 := SplicedRows(s1, u, cw, cw, us);
    CopiedRows(s, 0, w, w, ys);
    CopiedRows(s1, u, cw, cw, us);
    CopiedRows(s2, v, cw, cw, vs);
    TightBetween(u, cw, ch);
    TightBetween(v, cw, ch);
    PlaneKept(s1, u, cw, cw, us, u, v, 0, w, h);
    PlaneKept(s2, v, cw, cw, vs, v, |s|, 0, w, h);
    PlaneKept(s2, v, cw, cw, vs, v, |s|, u, cw, ch);
  }

  /** A plane without gaps in a buffer of length `n`. */
  predicate PlaneIn(n: nat, start: nat, w: nat, h: nat) { start + h * w <= n }

  predicate PlanesApart(a: nat, aw: nat, ah: nat, b: nat, bw: nat, bh: nat) { a + ah * aw <= b || b + bh * bw <= a }

  /** Three planes that share no byte. */
  predicate Planes(n: nat, width: nat, height: nat, cw: nat, ch: nat, u: nat, v: nat) {
    PlaneIn(n, 0, width, height) && PlaneIn(n, u, cw, ch) && PlaneIn(n, v, cw, ch)
    && PlanesApart(0, width, height, u, cw, ch) && PlanesApart(0, width, height, v, cw, ch) && PlanesApart(u, cw, ch, v, cw, ch)
  }

  lemma PlaneInside(n: nat, start: nat, w: nat, h: nat)
    requires PlaneIn(n, start, w, h)
    ensures Inside(n, start, w, w, h)
  {
    TightInside(n, start, w, h);
  }

  lemma ApartBothWays(a: nat, aw: nat, ah: nat, b: nat, bw: nat, bh: nat)
    ensures PlanesApart(a, aw, ah, b, bw, bh) <==> PlanesApart(b, bw, bh, a, aw, ah)
  {}

  /** Overlaying on one plane does just that, and leaves another plane alone. */
  lemma OnePlaneOverlaid(s: seq<Byte>, p: nat, pw: nat, ph: nat, x: nat, y: nat, w: nat, rows: Rows, q: nat, qw: nat, qh: nat)
    requires PlaneIn(|s|, p, pw, ph) && PlaneIn(|s|, q, qw, qh) && PlanesApart(p, pw, ph, q, qw, qh)
    requires Wide(rows, w) && x + w <= pw && y + |rows| <= ph
    ensures Inside(|s|, p, pw, pw, ph) && Inside(|s|, q, qw, qw, qh) && Inside(|s|, Corner(p, pw, x, y), pw, w, |rows|)
    ensures var s' := SplicedRows(s, Corner(p, pw, x, y), pw, w, rows);
            RowsOf(s', p, pw, pw, ph) == Overlaid(RowsOf(s, p, pw, pw, ph), rows, x, y)
            && RowsOf(s', q, qw, qw, qh) == RowsOf(s, q, qw, qw, qh)
  {
    hide Inside, RowsOf, SplicedRows, Between, Wide, Corner, Overlaid;
    PlaneInside(|s|, p, pw, ph);
    PlaneInside(|s|, q, qw, qh);
    RectangleInside(|s|, p, pw, ph, x, y, w, |rows|);
    WritingOverlays(s, p, pw, ph, x, y, w, rows);
    RectangleBetween(p, pw, ph, x, y, w, |rows|);
    PlaneKept(s, Corner(p, pw, x, y), pw, w, rows, p, p + ph * pw, q, qw, qh);
  }

  /** Planes that are copied into rectangles of the planes of a buffer are overlaid on them. */
  lemma PlanesOverlaid(s: seq<Byte>, width: nat, height: nat, cw: nat, ch: nat, u: nat, v: nat, x: nat, y: nat, w: nat,
                       cx: nat, cy: nat, cww: nat, ys: Rows, us: Rows, vs: Rows)
    requires Planes(|s|, width, height, cw, ch, u, v) && Wide(ys, w) && Wide(us, cww) && Wide(vs, cww)
    requires |us| == |vs| && x + w <= width && y + |ys| <= height && cx + cww <= cw && cy + |us| <= ch
    ensures Inside(|s|, 0, width, width, height) && Inside(|s|, u, cw, cw, ch) && Inside(|s|, v, cw, cw, ch)
    ensures Inside(|s|, Corner(0, width, x, y), width, w, |ys|)
    ensures Inside(|s|, Corner(u, cw, cx, cy), cw, cww, |us|) && Inside(|s|, Corner(v, cw, cx, cy), cw, cww, |vs|)
    ensures var s1 := SplicedRows(s, Corner(0, width, x, y), width, w, ys);
            var s2 := SplicedRows(s1, Corner(u, cw, cx, cy), cw, cww, us);
            var s3 := SplicedRows(s2, Corner(v, cw, cx, cy), cw, cww, vs);
            RowsOf(s3, 0, width, width, height) == Overlaid(RowsOf(s, 0, width, width, height), ys, x, y)
            && RowsOf(s3, u, cw, cw, ch) == Overlaid(RowsOf(s, u, cw, cw, ch), us, cx, cy)
            && RowsOf(s3, v, cw, cw, ch) == Overlaid(RowsOf(s, v, cw, cw, ch), vs, cx, cy)
  {
    hide Inside, RowsOf, SplicedRows, Wide, Corner, Overlaid, PlaneIn, PlanesApart;
    ApartBothWays(0, width, height, u, cw, ch);
    ApartBothWays(0, width, height, v, cw, ch);
    ApartBothWays(u, cw, ch, v, cw, ch);
    OnePlaneOverlaid(s, 0, width, height, x, y, w, ys, u, cw, ch);
    OnePlaneOverlaid(s, 0, width, height, x, y, w, ys, v, cw, ch);
    var s1 := SplicedRows(s, Corner(0, width, x, y), width, w, ys);
    OnePlaneOverlaid(s1, u, cw, ch, cx, cy, cww, us, 0, width, height);
    OnePlaneOverlaid(s1, u, cw, ch, cx, cy, cww, us, v, cw, ch);
    var s2 := SplicedRows(s1, Corner(u, cw, cx, cy), cw, cww, us);
    OnePlaneOverlaid(s2, v, cw, ch, cx, cy, cww, vs, 0, width, height);
    OnePlaneOverlaid(s2, v, cw, ch, cx, cy, cww, vs, u, cw, ch);
  }
}
