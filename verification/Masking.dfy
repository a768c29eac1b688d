/** Blacking out screen rectangles in an RGBA bitmap, in place, pixel by pixel.

    Rectangles are in logical points from the top left; the bitmap's first row is the bottom
    one. Floating-point rounding is not modelled; the casts to machine integers are. */
module Masking {
  import opened Basics

  datatype Rect = Rect(x: real, y: real, w: real, h: real)

  const TWO_63: int := 0x8000_0000_0000_0000
  const TWO_64: int := 0x1_0000_0000_0000_0000

  function Ceiling(x: real): int { -((-x).Floor) }

  /** The saturating cast of an integral float to a signed machine integer. */
  function ToSigned(n: int): (r: int)
    ensures -TWO_63 <= r < TWO_63
  {
    if n < -TWO_63 then -TWO_63 else if n >= TWO_63 then TWO_63 - 1 else n
  }

  /** The wrapping cast of a signed machine integer to an unsigned one. */
  function ToUnsigned(n: int): (r: nat)
    requires -TWO_63 <= n < TWO_63
    ensures r < TWO_64 && (n >= 0 ==> r == n) && (n < 0 ==> r >= TWO_63)
  {
    if n < 0 then n + TWO_64 else n
  }

  /** The first pixel of an extent that starts at `from`. */
  function Low(from: real, scale: real): nat {
    var n := ToSigned((from * scale).Floor);
    if n < 0 then 0 else n
  }

  function High(from: real, length: real, scale: real): int {
    ToSigned(Ceiling((from + length) * scale))
  }

  /** One past the last pixel, clipped to `size`: a negative edge wraps around. */
  function Clipped(from: real, length: real, scale: real, size: nat): nat
    requires size < TWO_63
  {
    var n := High(from, length, scale);
    ToUnsigned(if n < size then n else size)
  }

  /** A bitmap's dimensions and the factor from points to pixels. */
  datatype Canvas = Canvas(w: nat, h: nat, scale: real) {
    predicate Ok() { w < TWO_63 && h < TWO_63 }

    function X0(r: Rect): nat { Low(r.x, scale) }
    function Y0(r: Rect): nat { Low(r.y, scale) }
    function X1(r: Rect): nat requires Ok() { Clipped(r.x, r.w, scale, w) }
    function Y1(r: Rect): nat requires Ok() { Clipped(r.y, r.h, scale, h) }

    predicate Skips(r: Rect) requires Ok() {
      X0(r) >= X1(r) || Y0(r) >= Y1(r) || X0(r) >= w || Y0(r) >= h
    }

    /** The loops over the rectangle leave the buffer. */
    predicate Aborts(r: Rect) requires Ok() {
      !Skips(r) && (X1(r) > w || Y1(r) > h)
    }

    /** The pixel in column `col` of bitmap row `row` lies in the clipped, flipped rectangle. */
    predicate Covers(r: Rect, col: nat, row: nat)
      requires Ok() && row < h
    {
      X0(r) <= col < X1(r) && Y0(r) <= h - 1 - row < Y1(r)
    }

    predicate Covered(rects: seq<Rect>, col: nat, row: nat)
      requires Ok() && row < h
    {
      exists k :: 0 <= k < |rects| && Covers(rects[k], col, row)
    }
  }

  // ---------------------------------------------------------------- positions in the buffer

  function Row(i: nat, w: nat): nat requires w > 0 { (i / 4) / w }

  function Col(i: nat, w: nat): nat requires w > 0 { (i / 4) % w }

  function Black(i: nat): byte { if i % 4 == 3 then 255 else 0 }

  lemma MulMonotone(a: nat, b: nat, w: nat)
    requires a <= b
    ensures a * w <= b * w
  {
  }

  lemma FourTimes(a: nat, w: nat)
    ensures a * (w * 4) == a * w * 4
  {
  }

  lemma DivUnique(p: nat, w: nat, q: nat, m: nat)
    requires w > 0 && m < w && p == q * w + m
    ensures p / w == q && p % w == m
  {
    var d, r := p / w, p % w;
    assert p == d * w + r && r < w;
    assert (d + 1) * w == d * w + w && (q + 1) * w == q * w + w;
    if d < q { MulMonotone(d + 1, q, w); }
    if q < d { MulMonotone(q + 1, d, w); }
  }

  lemma RowInside(i: nat, w: nat, h: nat)
    requires w > 0 && i < w * h * 4
    ensures Row(i, w) < h && Col(i, w) < w
    ensures i / 4 == Row(i, w) * w + Col(i, w)
  {
    var p := i / 4;
    assert p < w * h;
    assert p == (p / w) * w + p % w;
    if p / w >= h { assert (p / w) * w >= h * w; }
  }

  /** A run of pixels within one row, as a range of the buffer. */
  lemma RunIsRange(i: nat, w: nat, h: nat, row: nat, x0: nat, x1: nat)
    requires w > 0 && i < w * h * 4 && row < h && x0 < x1 <= w
    ensures var base := row * (w * 4) + x0 * 4;
            base <= i < base + (x1 - x0) * 4 <==> Row(i, w) == row && x0 <= Col(i, w) < x1
  {
    RowInside(i, w, h);
    var p := i / 4;
    FourTimes(row, w);
    assert row * (w * 4) + x0 * 4 <= i < row * (w * 4) + x0 * 4 + (x1 - x0) * 4 <==> row * w + x0 <= p < row * w + x1;
    if row * w + x0 <= p < row * w + x1 {
      DivUnique(p, w, row, p - row * w);
    }
  }

  lemma RunInBuffer(w: nat, h: nat, row: nat, x0: nat, x1: nat)
    requires row < h && x0 < x1 <= w
    ensures row * (w * 4) + x0 * 4 + (x1 - x0) * 4 <= w * h * 4
  {
    MulMonotone(row + 1, h, w);
    assert (row + 1) * w == row * w + w;
    FourTimes(row, w);
  }

  // ---------------------------------------------------------------- the program

  /** The inner loop: `n` pixels from byte `base`. */
  method BlackenRun(rgba: array<byte>, base: nat, n: nat)
    requires base % 4 == 0 && base + n * 4 <= rgba.Length
    modifies rgba
    ensures forall i :: 0 <= i < rgba.Length ==>
              rgba[i] == if base <= i < base + n * 4 then Black(i) else old(rgba[i])
  {
    for px := 0 to n
      invariant forall i :: 0 <= i < rgba.Length ==>
                  rgba[i] == if base <= i < base + px * 4 then Black(i) else old(rgba[i])
    {
      var i := base + px * 4;
      rgba[i] := 0;
      rgba[i + 1] := 0;
      rgba[i + 2] := 0;
      rgba[i + 3] := 255;
    }
  }

  /** The two loops over one rectangle that stays inside the bitmap. */
  method BlackenRect(rgba: array<byte>, w: nat, h: nat, x0: nat, y0: nat, x1: nat, y1: nat)
    requires rgba.Length == w * h * 4 && x0 < x1 <= w && y0 < y1 <= h
    modifies rgba
    ensures forall i :: 0 <= i < rgba.Length ==>
              Row(i, w) < h &&
              rgba[i] == if x0 <= Col(i, w) < x1 && y0 <= h - 1 - Row(i, w) < y1 then Black(i) else old(rgba[i])
  {
    forall i | 0 <= i < rgba.Length ensures Row(i, w) < h { RowInside(i, w, h); }
    for py := y0 to y1
      invariant forall i :: 0 <= i < rgba.Length ==>
                  rgba[i] == if x0 <= Col(i, w) < x1 && y0 <= h - 1 - Row(i, w) < py then Black(i) else old(rgba[i])
    {
      var row := h - 1 - py;
      var base := row * (w * 4) + x0 * 4;
      RunInBuffer(w, h, row, x0, x1);
      assert base % 4 == 0 by { assert base == (row * w + x0) * 4; }
      BlackenRun(rgba, base, x1 - x0);
      forall i | 0 <= i < rgba.Length
        ensures base <= i < base + (x1 - x0) * 4 <==> Row(i, w) == row && x0 <= Col(i, w) < x1
      {
        RunIsRange(i, w, h, row, x0, x1);
      }
    }
  }

  /** The bitmap after masking: covered pixels black and opaque, every other byte as before. */
  function Masked(before: seq<byte>, c: Canvas, rects: seq<Rect>): (after: seq<byte>)
    requires c.Ok() && |before| == c.w * c.h * 4
  {
    seq(|before|, i requires 0 <= i < |before| =>
      RowInsideCanvas(i, c);
      if c.Covered(rects, Col(i, c.w), Row(i, c.w)) then Black(i) else before[i])
  }

  lemma RowInsideCanvas(i: nat, c: Canvas)
    requires i < c.w * c.h * 4
    ensures c.w > 0 && Row(i, c.w) < c.h
  {
    assert c.w == 0 ==> c.w * c.h * 4 == 0;
    RowInside(i, c.w, c.h);
  }

  lemma MaskedAt(before: seq<byte>, c: Canvas, rects: seq<Rect>, i: nat)
    requires c.Ok() && |before| == c.w * c.h * 4 && i < |before|
    ensures c.w > 0 && Row(i, c.w) < c.h
    ensures Masked(before, c, rects)[i] ==
            if c.Covered(rects, Col(i, c.w), Row(i, c.w)) then Black(i) else before[i]
  {
    RowInsideCanvas(i, c);
  }

  /** The place of a byte of the pixel in column `col` of row `row`. */
  lemma PixelPlace(w: nat, h: nat, col: nat, row: nat, k: nat)
    requires col < w && row < h && k < 4
    ensures var i := (row * w + col) * 4 + k; i < w * h * 4 && Row(i, w) == row && Col(i, w) == col && i % 4 == k
  {
    RunInBuffer(w, h, row, col, col + 1);
    FourTimes(row, w);
    assert ((row * w + col) * 4 + k) / 4 == row * w + col;
    DivUnique(row * w + col, w, row, col);
  }

  /** The four bytes of the pixel in column `col` of row `row`: black and opaque if it is covered, as
      before if not. */
  lemma PixelExactly(before: seq<byte>, c: Canvas, rects: seq<Rect>, col: nat, row: nat)
    requires c.Ok() && |before| == c.w * c.h * 4 && col < c.w && row < c.h
    ensures var p := (row * c.w + col) * 4;
            && p + 3 < |before|
            && var after := Masked(before, c, rects);
               [after[p], after[p + 1], after[p + 2], after[p + 3]] ==
               if c.Covered(rects, col, row) then [0, 0, 0, 255]
               else [before[p], before[p + 1], before[p + 2], before[p + 3]]
  {
    var p := (row * c.w + col) * 4;
    PixelPlace(c.w, c.h, col, row, 0);
    PixelPlace(c.w, c.h, col, row, 1);
    PixelPlace(c.w, c.h, col, row, 2);
    PixelPlace(c.w, c.h, col, row, 3);
    MaskedAt(before, c, rects, p);
    MaskedAt(before, c, rects, p + 1);
    MaskedAt(before, c, rects, p + 2);
    MaskedAt(before, c, rects, p + 3);
  }

  lemma MaskedMore(before: seq<byte>, c: Canvas, rects: seq<Rect>, k: nat, i: nat)
    requires c.Ok() && |before| == c.w * c.h * 4 && i < |before| && k < |rects|
    ensures c.w > 0 && Row(i, c.w) < c.h
    ensures Masked(before, c, rects[..k + 1])[i] ==
            if c.Covers(rects[k], Col(i, c.w), Row(i, c.w)) then Black(i) else Masked(before, c, rects[..k])[i]
  {
    MaskedAt(before, c, rects[..k + 1], i);
    MaskedAt(before, c, rects[..k], i);
    var col, row := Col(i, c.w), Row(i, c.w);
    if c.Covered(rects[..k], col, row) {
      var j :| 0 <= j < k && c.Covers(rects[..k][j], col, row);
      assert c.Covers(rects[..k + 1][j], col, row);
    }
    if c.Covers(rects[k], col, row) { assert rects[..k + 1][k] == rects[k]; }
  }

  /** The masking loop. `ok` is false when an index leaves the buffer, which happens exactly when
      some rectangle has a negative right or bottom edge and is not skipped. */
  method MaskInPlace(rgba: array<byte>, c: Canvas, rects: seq<Rect>) returns (ok: bool)
    requires c.Ok() && rgba.Length == c.w * c.h * 4
    modifies rgba
    ensures ok <==> forall k :: 0 <= k < |rects| ==> !c.Aborts(rects[k])
    ensures ok ==> rgba[..] == Masked(old(rgba[..]), c, rects)
  {
    ghost var before := rgba[..];
    assert rgba[..] == Masked(before, c, rects[..0]);
    for k := 0 to |rects|
      invariant forall j :: 0 <= j < k ==> !c.Aborts(rects[j])
      invariant rgba[..] == Masked(before, c, rects[..k])
    {
      var r := rects[k];
      var x0, y0, x1, y1 := c.X0(r), c.Y0(r), c.X1(r), c.Y1(r);
      if !(x0 >= x1 || y0 >= y1 || x0 >= c.w || y0 >= c.h) {
        if x1 > c.w || y1 > c.h { return false; }
        BlackenRect(rgba, c.w, c.h, x0, y0, x1, y1);
      }
      forall i | 0 <= i < rgba.Length ensures rgba[i] == Masked(before, c, rects[..k + 1])[i] {
        MaskedMore(before, c, rects, k, i);
      }
    }
    assert rects[..|rects|] == rects;
    ok := true;
  }

  // ---------------------------------------------------------------- what masking means

  /** When the program aborts, in terms of the scaled edges: an edge is negative, the other axis
      is not empty, and the rectangle starts inside the bitmap. */
  lemma AbortsExactly(c: Canvas, r: Rect)
    requires c.Ok()
    ensures c.Aborts(r) <==>
              && (High(r.x, r.w, c.scale) < 0 || High(r.y, r.h, c.scale) < 0)
              && c.X0(r) < c.w && c.Y0(r) < c.h
              && (High(r.x, r.w, c.scale) < 0 || c.X0(r) < High(r.x, r.w, c.scale))
              && (High(r.y, r.h, c.scale) < 0 || c.Y0(r) < High(r.y, r.h, c.scale))
  {
  }

  /** The order and the repetition of the rectangles do not matter. */
  lemma OrderIrrelevant(before: seq<byte>, c: Canvas, a: seq<Rect>, b: seq<Rect>)
    requires c.Ok() && |before| == c.w * c.h * 4
    requires forall r :: r in a <==> r in b
    ensures Masked(before, c, a) == Masked(before, c, b)
  {
    forall i | 0 <= i < |before| ensures Masked(before, c, a)[i] == Masked(before, c, b)[i] {
      MaskedAt(before, c, a, i);
      MaskedAt(before, c, b, i);
      SameCover(c, a, b, Col(i, c.w), Row(i, c.w));
      SameCover(c, b, a, Col(i, c.w), Row(i, c.w));
    }
  }

  lemma SameCover(c: Canvas, a: seq<Rect>, b: seq<Rect>, col: nat, row: nat)
    requires c.Ok() && row < c.h && forall r :: r in a ==> r in b
    ensures c.Covered(a, col, row) ==> c.Covered(b, col, row)
  {
    if c.Covered(a, col, row) {
      var k :| 0 <= k < |a| && c.Covers(a[k], col, row);
      assert a[k] in b;
      var j :| 0 <= j < |b| && b[j] == a[k];
      assert c.Covers(b[j], col, row);
    }
  }

  /** Masking in two rounds is masking once with both lists. */
  lemma MaskingComposes(before: seq<byte>, c: Canvas, a: seq<Rect>, b: seq<Rect>)
    requires c.Ok() && |before| == c.w * c.h * 4
    ensures Masked(Masked(before, c, a), c, b) == Masked(before, c, a + b)
  {
    forall i | 0 <= i < |before| ensures Masked(Masked(before, c, a), c, b)[i] == Masked(before, c, a + b)[i] {
      MaskedAt(before, c, a, i);
      MaskedAt(Masked(before, c, a), c, b, i);
      MaskedAt(before, c, a + b, i);
      var col, row := Col(i, c.w), Row(i, c.w);
      SameCover(c, a, a + b, col, row);
      SameCover(c, b, a + b, col, row);
      if c.Covered(a + b, col, row) {
        var k :| 0 <= k < |a + b| && c.Covers((a + b)[k], col, row);
        if k < |a| { assert c.Covers(a[k], col, row); } else { assert c.Covers(b[k - |a|], col, row); }
      }
    }
  }

  /** Pixel `p` of an axis, as the open interval from `p` to `p + 1`, meets the scaled extent. */
  predicate Meets(p: nat, from: real, length: real, scale: real) {
    var lo, hi := Max(p as real, from * scale), Min((p + 1) as real, (from + length) * scale);
    lo < hi
  }

  lemma MeetsExactly(p: nat, from: real, length: real, scale: real, size: nat)
    requires p < size < TWO_63 && from * scale < (from + length) * scale
    requires High(from, length, scale) >= 0
    ensures Meets(p, from, length, scale) <==> Low(from, scale) <= p < Clipped(from, length, scale, size)
  {
    var a, b := from * scale, (from + length) * scale;
    assert a.Floor <= p <==> a < (p + 1) as real by {
      assert a.Floor as real <= a < (a.Floor + 1) as real;
    }
    assert p < Ceiling(b) <==> (p as real) < b by {
      assert (-b).Floor as real <= -b < ((-b).Floor + 1) as real;
    }
  }

  /** For rectangles with positive scaled extent and no negative edge, a pixel is masked exactly
      when its square and some scaled rectangle overlap: nothing sensitive is left uncovered and
      no pixel is lost without cause. */
  lemma CoversExactlyWhatItMeets(c: Canvas, r: Rect, col: nat, row: nat)
    requires c.Ok() && col < c.w && row < c.h && c.scale > 0.0 && r.w > 0.0 && r.h > 0.0
    requires High(r.x, r.w, c.scale) >= 0 && High(r.y, r.h, c.scale) >= 0
    ensures c.Covers(r, col, row) <==>
              Meets(col, r.x, r.w, c.scale) && Meets(c.h - 1 - row, r.y, r.h, c.scale)
  {
    Stretch(r.x, r.w, c.scale);
    Stretch(r.y, r.h, c.scale);
    MeetsExactly(col, r.x, r.w, c.scale, c.w);
    MeetsExactly(c.h - 1 - row, r.y, r.h, c.scale, c.h);
  }

  lemma Stretch(from: real, length: real, scale: real)
    requires scale > 0.0 && length > 0.0
    ensures from * scale < (from + length) * scale
  {
    assert length * scale > 0.0;
    assert (from + length) * scale == from * scale + length * scale;
  }
}
