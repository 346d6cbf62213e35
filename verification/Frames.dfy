/** Rectangles of RGBA pixels: cut out of the desktop image by `pack_rect` (rdp.rs), put into the
    client's framebuffer by `Framebuffer.apply` (framebuffer.dart). */
module Frames {
  import opened Bounds
  import opened Bytes

  /** Inclusive on all four sides. */
  datatype Rect = Rect(left: nat, top: nat, right: nat, bottom: nat)

  /** A desktop of `width` by `height` pixels, four bytes each, row after row. */
  datatype Size = Size(width: nat, height: nat)

  function Stride(s: Size): nat { 4 * s.width }

  function ByteCount(s: Size): nat { s.height * Stride(s) }

  ghost predicate Fits(s: Size, r: Rect)
  {
    r.left <= r.right < s.width && r.top <= r.bottom < s.height
  }

  function RectWidth(r: Rect): nat
    requires r.left <= r.right
  {
    r.right - r.left + 1
  }

  function RectHeight(r: Rect): nat
    requires r.top <= r.bottom
  {
    r.bottom - r.top + 1
  }

  function Union(a: Rect, b: Rect): Rect
  {
    Rect(Min(a.left, b.left), Min(a.top, b.top), Max(a.right, b.right), Max(a.bottom, b.bottom))
  }

  function RowOf(s: Size, k: nat): int
    requires s.width > 0
  {
    k / Stride(s)
  }

  function ColOf(s: Size, k: nat): int
    requires s.width > 0
  {
    (k % Stride(s)) / 4
  }

  /** Byte `k` of the image belongs to a pixel of `r`. */
  predicate Inside(s: Size, r: Rect, k: nat)
    requires s.width > 0
  {
    r.top <= RowOf(s, k) <= r.bottom && r.left <= ColOf(s, k) <= r.right
  }

  /** Where the pixel in column `x` of row `y` starts. */
  function Offset(s: Size, x: nat, y: nat): nat
  {
    4 * x + y * Stride(s)
  }

  lemma MulMono(a: nat, b: nat, d: nat)
    requires a <= b
    ensures a * d <= b * d
  {
    assert b * d == a * d + (b - a) * d;
    assert (b - a) * d >= 0;
  }

  lemma OffsetBounds(s: Size, x: nat, y: nat, w: nat)
    requires x + w <= s.width && y < s.height
    ensures Offset(s, x, y) + 4 * w <= (y + 1) * Stride(s) <= ByteCount(s)
  {
    MulMono(y + 1, s.height, Stride(s));
    assert (y + 1) * Stride(s) == y * Stride(s) + Stride(s);
  }

  /** The bytes of `w` pixels of row `y` from column `x` are exactly those of that rectangle. */
  lemma {:induction false} RowIsInside(s: Size, x: nat, y: nat, w: nat, k: nat)
    requires 0 < w && x + w <= s.width
    ensures Offset(s, x, y) <= k < Offset(s, x, y) + 4 * w <==> Inside(s, Rect(x, y, x + w - 1, y), k)
  {
    var d := Stride(s);
    var row, off := k / d, k % d;
    assert k == d * row + off;
    assert k - y * d == d * (row - y) + off;
    AtLeastOnce(d, row - y);
  }

  // ----- cutting out -----

  /** The bytes of `n` rows of `w` pixels. */
  function RowsLength(n: nat, w: nat): (r: nat)
    ensures n == 0 ==> r == 0
  {
    n * (4 * w)
  }

  /** The first `n` rows of `r`. */
  function PackRows(s: Size, data: bytes, r: Rect, n: nat): (out: bytes)
    requires |data| == ByteCount(s) && Fits(s, r) && n <= RectHeight(r)
    ensures |out| == RowsLength(n, RectWidth(r))
  {
    if n == 0 then []
    else
      OffsetBounds(s, r.left, r.top + n - 1, RectWidth(r));
      RowBounds(n - 1, n, RectWidth(r));
      var start := Offset(s, r.left, r.top + n - 1);
      PackRows(s, data, r, n - 1) + data[start..start + 4 * RectWidth(r)]
  }

  function PackRect(s: Size, data: bytes, r: Rect): bytes
    requires |data| == ByteCount(s) && Fits(s, r)
  {
    PackRows(s, data, r, RectHeight(r))
  }

  lemma RowBounds(i: nat, n: nat, w: nat)
    requires i < n
    ensures RowsLength(i, w) + 4 * w == RowsLength(i + 1, w) <= RowsLength(n, w)
  {
    MulMono(i + 1, n, 4 * w);
    assert (i + 1) * (4 * w) == i * (4 * w) + 4 * w;
  }

  lemma SliceOfPrefix(a: bytes, b: bytes, from: nat, len: nat)
    requires from + len <= |a|
    ensures (a + b)[from..from + len] == a[from..from + len]
  {
  }

  lemma SliceOfSuffix(a: bytes, b: bytes)
    ensures (a + b)[|a|..|a| + |b|] == b
  {
  }

  lemma PackedLast(s: Size, data: bytes, r: Rect, n: nat)
    requires |data| == ByteCount(s) && Fits(s, r) && 0 < n <= RectHeight(r)
    ensures var w, start := 4 * RectWidth(r), Offset(s, r.left, r.top + n - 1);
            && start + w <= |data|
            && PackRows(s, data, r, n) == PackRows(s, data, r, n - 1) + data[start..start + w]
  {
    hide ByteCount, Stride, Offset, RowsLength;
    OffsetBounds(s, r.left, r.top + n - 1, RectWidth(r));
  }

  lemma {:induction false} PackedRow(s: Size, data: bytes, r: Rect, n: nat, i: nat)
    requires |data| == ByteCount(s) && Fits(s, r) && i < n <= RectHeight(r)
    ensures var w, at := 4 * RectWidth(r), RowsLength(i, RectWidth(r));
            var start := Offset(s, r.left, r.top + i);
            && at + w <= RowsLength(n, RectWidth(r))
            && start + w <= |data|
            && PackRows(s, data, r, n)[at..at + w] == data[start..start + w]
  {
    hide ByteCount, Stride, Offset, RowsLength, PackRows;
    var w, at := 4 * RectWidth(r), RowsLength(i, RectWidth(r));
    RowBounds(i, n, RectWidth(r));
    PackedLast(s, data, r, n);
    var before := PackRows(s, data, r, n - 1);
    var start := Offset(s, r.left, r.top + n - 1);
    if i < n - 1 {
      PackedRow(s, data, r, n - 1, i);
      SliceOfPrefix(before, data[start..start + w], at, w);
    } else {
      SliceOfSuffix(before, data[start..start + w]);
    }
  }

  /** The loop of `pack_rect`. */
  method PackRectangle(s: Size, image: array<byte>, r: Rect) returns (out: bytes)
    requires image.Length == ByteCount(s) && Fits(s, r)
    ensures out == PackRect(s, image[..], r)
  {
    ghost var data := image[..];
    var width, height := RectWidth(r), RectHeight(r);
    out := [];
    assert out == PackRows(s, data, r, 0);
    hide PackRows, ByteCount, Stride, RowsLength, Offset, RectWidth, RectHeight;
    for row := 0 to height
      invariant out == PackRows(s, data, r, row)
    {
      PackedLast(s, data, r, row + 1);
      var start := Offset(s, r.left, r.top + row);
      var end := start + 4 * width;
      out := out + image[start..end];
    }
  }

  // ----- putting in -----

  /** `piece` laid over `d` from `start` on. */
  function Splice(d: bytes, start: nat, piece: bytes): (r: bytes)
    requires start + |piece| <= |d|
    ensures |r| == |d|
  {
    d[..start] + piece + d[start + |piece|..]
  }

  /** The first `n` rows of an update; a row below the framebuffer or running over its end is
      skipped. */
  function ApplyRows(s: Size, d: bytes, x: nat, y: nat, w: nat, src: bytes, n: nat): (r: bytes)
    requires |d| == ByteCount(s) && RowsLength(n, w) <= |src|
    ensures |r| == |d|
  {
    if n == 0 then d
    else
      RowBounds(n - 1, n, w);
      var before := ApplyRows(s, d, x, y, w, src, n - 1);
      var start := Offset(s, x, y + n - 1);
      if y + n - 1 >= s.height || start + 4 * w > |d| then before
      else Splice(before, start, src[RowsLength(n - 1, w)..RowsLength(n - 1, w) + 4 * w])
  }

  function Apply(s: Size, d: bytes, x: nat, y: nat, w: nat, h: nat, src: bytes): (r: bytes)
    requires |d| == ByteCount(s)
    ensures |r| == |d|
  {
    if w == 0 || h == 0 || |src| < RowsLength(h, w) then d else ApplyRows(s, d, x, y, w, src, h)
  }

  lemma ApplyStep(s: Size, d: bytes, x: nat, y: nat, w: nat, src: bytes, n: nat)
    requires |d| == ByteCount(s) && RowsLength(n, w) + 4 * w == RowsLength(n + 1, w) <= |src|
    ensures var before, start, at := ApplyRows(s, d, x, y, w, src, n), Offset(s, x, y + n), RowsLength(n, w);
            ApplyRows(s, d, x, y, w, src, n + 1)
            == if y + n >= s.height || start + 4 * w > |d| then before else Splice(before, start, src[at..at + 4 * w])
  {
  }

  lemma LaidOver(before: bytes, after: bytes, start: nat, piece: bytes)
    requires |after| == |before| && start + |piece| <= |before|
    requires forall k :: 0 <= k < |before| ==>
               after[k] == if start <= k < start + |piece| then piece[k - start] else before[k]
    ensures after == Splice(before, start, piece)
  {
  }

  /** `Framebuffer`: the pixels change in place. */
  class Framebuffer {
    const size: Size
    const pixels: array<byte>
    var dirty: bool

    constructor (size: Size)
      ensures this.size == size && fresh(pixels) && pixels.Length == ByteCount(size)
      ensures forall k :: 0 <= k < pixels.Length ==> pixels[k] == 0
    {
      this.size := size;
      pixels := new byte[ByteCount(size)](_ => 0);
      dirty := false;
    }

    method Put(x: nat, y: nat, w: nat, h: nat, src: bytes)
      requires pixels.Length == ByteCount(size)
      modifies this, pixels
      ensures pixels[..] == Apply(size, old(pixels[..]), x, y, w, h, src)
    {
      if w == 0 || h == 0 { return; }
      if |src| < RowsLength(h, w) { return; }
      ghost var d := pixels[..];
      for row := 0 to h
        invariant pixels.Length == ByteCount(size)
        invariant RowsLength(row, w) <= |src|
        invariant pixels[..] == ApplyRows(size, d, x, y, w, src, row)
      {
        RowBounds(row, h, w);
        PutRow(x, y, w, src, row, d);
      }
      dirty := true;
    }

    method PutRow(x: nat, y: nat, w: nat, src: bytes, row: nat, ghost d: bytes)
      requires |d| == pixels.Length == ByteCount(size) && RowsLength(row, w) + 4 * w <= |src|
      requires RowsLength(row, w) <= |src| && pixels[..] == ApplyRows(size, d, x, y, w, src, row)
      modifies pixels
      ensures RowsLength(row + 1, w) <= |src| && pixels[..] == ApplyRows(size, d, x, y, w, src, row + 1)
    {
      RowBounds(row, row + 1, w);
      ApplyStep(size, d, x, y, w, src, row);
      hide ApplyRows, Offset, RowsLength, ByteCount, Stride, Splice;
      var start, from := Offset(size, x, y + row), RowsLength(row, w);
      if y + row < size.height && start + 4 * w <= pixels.Length {
        SetRange(start, src[from..from + 4 * w]);
      }
    }

    method SetRange(start: nat, piece: bytes)
      requires start + |piece| <= pixels.Length
      modifies pixels
      ensures pixels[..] == Splice(old(pixels[..]), start, piece)
    {
      forall k | 0 <= k < |piece| {
        pixels[start + k] := piece[k];
      }
      LaidOver(old(pixels[..]), pixels[..], start, piece);
    }
  }

  // ----- one after the other -----

  lemma SpliceAt(d: bytes, start: nat, piece: bytes, k: nat)
    requires start + |piece| <= |d| && k < |d|
    ensures Splice(d, start, piece)[k] == if start <= k < start + |piece| then piece[k - start] else d[k]
  {
  }

  lemma SpliceImage(d: bytes, image: bytes, start: nat, len: nat, k: nat)
    requires start + len <= |image| == |d| && k < |d|
    ensures Splice(d, start, image[start..start + len])[k] == if start <= k < start + len then image[k] else d[k]
  {
    SpliceAt(d, start, image[start..start + len], k);
  }

  /** What the first `n` rows of the update for `r` make of `d`. */
  function RowsApplied(s: Size, image: bytes, d: bytes, r: Rect, n: nat): (out: bytes)
    requires |image| == |d| == ByteCount(s) && Fits(s, r) && n <= RectHeight(r)
    ensures |out| == |d|
  {
    if n < RectHeight(r) then
      RowBounds(n, RectHeight(r), RectWidth(r));
      ApplyRows(s, d, r.left, r.top, RectWidth(r), PackRect(s, image, r), n)
    else
      ApplyRows(s, d, r.left, r.top, RectWidth(r), PackRect(s, image, r), n)
  }

  /** Row `n - 1` of the update, laid over what the rows before it gave. */
  lemma {:induction false} LastRow(s: Size, image: bytes, d: bytes, r: Rect, n: nat)
    requires |image| == |d| == ByteCount(s) && Fits(s, r) && 0 < n <= RectHeight(r)
    ensures var w, start := 4 * RectWidth(r), Offset(s, r.left, r.top + n - 1);
            && start + w <= |d|
            && RowsApplied(s, image, d, r, n)
               == Splice(RowsApplied(s, image, d, r, n - 1), start, image[start..start + w])
  {
    hide PackRows, Offset, Stride, ByteCount, Splice, RowsLength;
    RowBounds(n - 1, RectHeight(r), RectWidth(r));
    PackedRow(s, image, r, RectHeight(r), n - 1);
    OffsetBounds(s, r.left, r.top + n - 1, RectWidth(r));
  }

  lemma InsideRows(s: Size, r: Rect, n: nat, k: nat)
    requires Fits(s, r) && n > 0
    ensures Inside(s, Rect(r.left, r.top, r.right, r.top + n - 1), k)
            <==> || Inside(s, Rect(r.left, r.top + n - 1, r.right, r.top + n - 1), k)
                 || (n > 1 && Inside(s, Rect(r.left, r.top, r.right, r.top + (n - 1) - 1), k))
  {
    hide RowOf, ColOf;
  }

  /** What the first `n` rows of the update leave at byte `k`. */
  ghost predicate Arrived(s: Size, image: bytes, d: bytes, r: Rect, n: nat, k: nat)
    requires |image| == |d| == ByteCount(s) && Fits(s, r) && n <= RectHeight(r) && k < |d|
  {
    RowsApplied(s, image, d, r, n)[k]
    == if n > 0 && Inside(s, Rect(r.left, r.top, r.right, r.top + n - 1), k) then image[k] else d[k]
  }

  /** Row `n - 1` in terms of where byte `k` lies. */
  lemma {:induction false} LastRowAt(s: Size, image: bytes, d: bytes, r: Rect, n: nat, k: nat)
    requires |image| == |d| == ByteCount(s) && Fits(s, r) && 0 < n <= RectHeight(r) && k < |d|
    ensures RowsApplied(s, image, d, r, n)[k]
            == if Inside(s, Rect(r.left, r.top + n - 1, r.right, r.top + n - 1), k) then image[k]
               else RowsApplied(s, image, d, r, n - 1)[k]
  {
    hide RowsApplied, Splice, Offset, Stride, ByteCount, Inside;
    var width, y := RectWidth(r), r.top + n - 1;
    LastRow(s, image, d, r, n);
    RowIsInside(s, r.left, y, width, k);
    assert Rect(r.left, y, r.left + width - 1, y) == Rect(r.left, y, r.right, y);
    SpliceImage(RowsApplied(s, image, d, r, n - 1), image, Offset(s, r.left, y), 4 * width, k);
  }

  lemma {:induction false} NextRowArrives(s: Size, image: bytes, d: bytes, r: Rect, n: nat, k: nat)
    requires |image| == |d| == ByteCount(s) && Fits(s, r) && 0 < n <= RectHeight(r) && k < |d|
    requires Arrived(s, image, d, r, n - 1, k)
    ensures Arrived(s, image, d, r, n, k)
  {
    hide RowsApplied, ByteCount, Inside;
    LastRowAt(s, image, d, r, n, k);
    InsideRows(s, r, n, k);
  }

  lemma {:induction false} RowsArrive(s: Size, image: bytes, d: bytes, r: Rect, n: nat, k: nat)
    requires |image| == |d| == ByteCount(s) && Fits(s, r) && n <= RectHeight(r) && k < |d|
    ensures Arrived(s, image, d, r, n, k)
  {
    if n > 0 {
      hide Arrived, ByteCount;
      RowsArrive(s, image, d, r, n - 1, k);
      NextRowArrives(s, image, d, r, n, k);
    }
  }

  /** An update cut out of the image and applied: inside the rectangle the framebuffer now shows
      the image, everywhere else it is as it was. */
  lemma {:induction false} UpdateArrives(s: Size, image: bytes, d: bytes, r: Rect, k: nat)
    requires |image| == |d| == ByteCount(s) && Fits(s, r) && k < |d|
    ensures Apply(s, d, r.left, r.top, RectWidth(r), RectHeight(r), PackRect(s, image, r))[k]
            == if Inside(s, r, k) then image[k] else d[k]
  {
    RowsArrive(s, image, d, r, RectHeight(r), k);
  }
}
