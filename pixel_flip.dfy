/**
 * The vertical flip the marquee applies to pixels read back from WebGL,
 * whose rows run bottom-up: the image buffer holds `h` rows of
 * `width * 4` bytes, and row y is exchanged with row h-y-1 in place.
 */
module PixelFlip {

  newtype byte = x: int | 0 <= x < 0x100

  lemma MulLeq(a: nat, b: nat, n: nat)
    requires a <= b
    ensures a * n <= b * n
  {
  }

  /** Row `r`'s bytes lie inside the buffer. */
  lemma RowInside(r: nat, h: nat, len: nat)
    requires r < h
    ensures r * len + len <= h * len
  {
    MulLeq(r + 1, h, len);
    assert (r + 1) * len == r * len + len;
  }

  /** Byte `c` of row `r` in a buffer of `h` rows of `len` bytes. */
  function Cell(r: nat, c: nat, len: nat, h: nat): (i: nat)
    requires r < h && c < len
    ensures r * len <= i < r * len + len && i < h * len
  {
    MulLeq(r + 1, h, len);
    r * len + c
  }

  /** Every byte of the buffer is a cell of exactly one row. */
  lemma CellOf(i: nat, len: nat, h: nat)
    requires i < h * len
    ensures len > 0 && i / len < h && Cell(i / len, i % len, len, h) == i
  {
    if i / len >= h {
      MulLeq(h, i / len, len);
    }
  }

  /** Two different rows do not overlap. */
  lemma RowsApart(y: nat, f: nat, len: nat)
    requires y <= f
    ensures y == f || y * len + len <= f * len
  {
    if y < f { MulLeq(y + 1, f, len); }
  }

  /** A cell of another row lies outside row `y`'s byte range. */
  lemma OutsideRow(r: nat, c: nat, y: nat, len: nat, h: nat)
    requires r < h && c < len && y < h && r != y
    ensures !(y * len <= Cell(r, c, len, h) < y * len + len)
  {
    if r < y { MulLeq(r + 1, y, len); } else { MulLeq(y + 1, r, len); }
  }

  /** `t` holds the rows of `s` in reverse order. */
  ghost predicate RowsFlipped(s: seq<byte>, t: seq<byte>, len: nat, h: nat)
    requires |s| == |t| == h * len
  {
    forall r, c | 0 <= r < h && 0 <= c < len :: t[Cell(r, c, len, h)] == s[Cell(h - 1 - r, c, len, h)]
  }

  /** Flipping twice gives the original back, and a flip is determined by its input. */
  lemma {:induction false} FlipTwiceIsIdentity(s: seq<byte>, t: seq<byte>, u: seq<byte>, len: nat, h: nat)
    requires |s| == |t| == |u| == h * len
    requires RowsFlipped(s, t, len, h) && RowsFlipped(t, u, len, h)
    ensures u == s
  {
    forall i | 0 <= i < |s|
      ensures u[i] == s[i]
    {
      CellOf(i, len, h);
      var r, c := i / len, i % len;
      assert u[Cell(r, c, len, h)] == t[Cell(h - 1 - r, c, len, h)];
    }
  }

  /** `s` with the bytes from `offset` on replaced by `src`. */
  function Overwritten(s: seq<byte>, offset: nat, src: seq<byte>): (t: seq<byte>)
    requires offset + |src| <= |s|
    ensures |t| == |s|
  {
    s[..offset] + src + s[offset + |src|..]
  }

  /** Byte by byte: the overwritten range holds `src`, the rest is kept. */
  lemma OverwrittenBytes(s: seq<byte>, offset: nat, src: seq<byte>)
    requires offset + |src| <= |s|
    ensures forall i | 0 <= i < |s| ::
              Overwritten(s, offset, src)[i] == if offset <= i < offset + |src| then src[i - offset] else s[i]
  {
  }

  /** `view.set(src)` for a view starting at `offset`: copies `src` in, leaving every other byte. */
  method SetBytes(dst: array<byte>, offset: nat, src: seq<byte>)
    requires offset + |src| <= dst.Length
    modifies dst
    ensures dst[..] == Overwritten(old(dst[..]), offset, src)
  {
    var k := 0;
    while k < |src|
      invariant 0 <= k <= |src|
      invariant forall i | 0 <= i < dst.Length ::
                  dst[i] == if offset <= i < offset + k then src[i - offset] else old(dst[i])
    {
      dst[offset + k] := src[k];
      k := k + 1;
    }
    OverwrittenBytes(old(dst[..]), offset, src);
    assert dst[..] == Overwritten(old(dst[..]), offset, src);
  }

  /**
   * Copying row b into the swap buffer, row a over row b, and the buffer
   * over row a exchanges the two rows (a and b may be the same row).
   */
  lemma {:induction false} CopiesExchange(s: seq<byte>, a: nat, b: nat, len: nat)
    requires a + len <= |s| && b + len <= |s|
    requires a == b || a + len <= b || b + len <= a
    ensures var t := Overwritten(Overwritten(s, b, s[a..a + len]), a, s[b..b + len]);
      forall i | 0 <= i < |s| :: t[i] == RowsExchanged(s, a, b, len, i)
  {
    var mid := Overwritten(s, b, s[a..a + len]);
    OverwrittenBytes(s, b, s[a..a + len]);
    OverwrittenBytes(mid, a, s[b..b + len]);
  }

  /** The row that cell row `r` holds after swapping the outer `y` pairs. */
  function SourceRow(r: nat, y: nat, h: nat): nat
    requires r < h
  {
    if r < y || r >= h - y then h - 1 - r else r
  }

  /** The invariant of the flip loop after swapping the outer `y` pairs of rows. */
  ghost predicate OuterRowsSwapped(current: seq<byte>, original: seq<byte>, y: nat, len: nat, h: nat)
    requires |current| == |original| == h * len
  {
    forall r, c | 0 <= r < h && 0 <= c < len ::
      current[Cell(r, c, len, h)] == original[Cell(SourceRow(r, y, h), c, len, h)]
  }

  /** Byte `i` after exchanging the `len` bytes at `a` with those at `b`. */
  function RowsExchanged(s: seq<byte>, a: nat, b: nat, len: nat, i: nat): byte
    requires a + len <= |s| && b + len <= |s| && i < |s|
  {
    if a <= i < a + len then s[i - a + b]
    else if b <= i < b + len then s[i - b + a]
    else s[i]
  }

  /** One cell after exchanging rows y and h-y-1: it holds the row the outer y+1 pairs call for. */
  lemma {:induction false} SwapStepCell(before: seq<byte>, after: seq<byte>, original: seq<byte>,
                                        y: nat, len: nat, h: nat, r: nat, c: nat)
    requires 2 * y < h && |before| == |after| == |original| == h * len && r < h && c < len
    requires y * len + len <= (h - y - 1) * len || y == h - y - 1
    requires forall i | 0 <= i < |after| ::
               after[i] == RowsExchanged(before, y * len, (h - y - 1) * len, len, i)
    requires forall r', c' | 0 <= r' < h && 0 <= c' < len ::
               before[Cell(r', c', len, h)] == original[Cell(SourceRow(r', y, h), c', len, h)]
    ensures after[Cell(r, c, len, h)] == original[Cell(SourceRow(r, y + 1, h), c, len, h)]
  {
    var f := h - y - 1;
    var i := Cell(r, c, len, h);
    if r == y {
      assert i == y * len + c;
      assert after[i] == before[Cell(f, c, len, h)];
    } else if r == f {
      OutsideRow(r, c, y, len, h);
      assert i == f * len + c;
      assert after[i] == before[Cell(y, c, len, h)];
    } else {
      OutsideRow(r, c, y, len, h);
      OutsideRow(r, c, f, len, h);
      assert after[i] == before[i];
    }
  }

  /** The buffer with rows y and h-y-1 exchanged, the way the flip loop's three copies do it. */
  ghost function PairSwapped(s: seq<byte>, y: nat, len: nat, h: nat): (t: seq<byte>)
    requires 2 * y < h && |s| == h * len
    ensures |t| == |s|
  {
    RowInside(y, h, len);
    RowInside(h - y - 1, h, len);
    var a, b := y * len, (h - y - 1) * len;
    Overwritten(Overwritten(s, b, s[a..a + len]), a, s[b..b + len])
  }

  /** Exchanging rows y and h-y-1 extends the swapped outer pairs by one. */
  lemma {:induction false} SwapStep(before: seq<byte>, original: seq<byte>, y: nat, len: nat, h: nat)
    requires 2 * y < h && |before| == |original| == h * len
    requires OuterRowsSwapped(before, original, y, len, h)
    ensures OuterRowsSwapped(PairSwapped(before, y, len, h), original, y + 1, len, h)
  {
    var after := PairSwapped(before, y, len, h);
    var rowOffset, flippedRowOffset := y * len, (h - y - 1) * len;
    RowInside(y, h, len);
    RowInside(h - y - 1, h, len);
    RowsApart(y, h - y - 1, len);
    CopiesExchange(before, rowOffset, flippedRowOffset, len);
    forall r, c | 0 <= r < h && 0 <= c < len
      ensures after[Cell(r, c, len, h)] == original[Cell(SourceRow(r, y + 1, h), c, len, h)]
    {
      SwapStepCell(before, after, original, y, len, h, r, c);
    }
  }

  /**
   * One iteration's three copies: row b into the swap buffer, row a over
   * row b, then the buffer over row a.
   */
  method SwapRows(data: array<byte>, rowSwapBuffer: array<byte>, a: nat, b: nat)
    requires rowSwapBuffer != data
    requires a + rowSwapBuffer.Length <= data.Length && b + rowSwapBuffer.Length <= data.Length
    modifies data, rowSwapBuffer
    ensures var len := rowSwapBuffer.Length;
      data[..] == Overwritten(Overwritten(old(data[..]), b, old(data[..])[a..a + len]), a, old(data[..])[b..b + len])
  {
    var len := rowSwapBuffer.Length;
    ghost var before := data[..];
    ghost var row := before[b..b + len];
    SetBytes(rowSwapBuffer, 0, data[b..b + len]);
    OverwrittenWhole(old(rowSwapBuffer[..]), row);
    assert data[..] == before;
    SetBytes(data, b, data[a..a + len]);
    ghost var mid := data[..];
    SetBytes(data, a, rowSwapBuffer[..]);
    assert data[..] == Overwritten(mid, a, row);
  }

  /** Overwriting a whole buffer leaves exactly the new bytes. */
  lemma OverwrittenWhole(s: seq<byte>, src: seq<byte>)
    requires |src| == |s|
    ensures Overwritten(s, 0, src) == src
  {
    assert s[..0] == [] && s[|src|..] == [];
  }

  /** One iteration of the flipY loop: rows y and h-y-1 are exchanged through the swap buffer. */
  method SwapOuterPair(data: array<byte>, rowSwapBuffer: array<byte>, y: nat, h: nat)
    requires rowSwapBuffer != data && 2 * y < h
    requires data.Length == h * rowSwapBuffer.Length
    modifies data, rowSwapBuffer
    ensures data[..] == PairSwapped(old(data[..]), y, rowSwapBuffer.Length, h)
  {
    var rowByteLength := rowSwapBuffer.Length;
    var rowOffset := y * rowByteLength;
    var flippedRowOffset := (h - y - 1) * rowByteLength;
    RowInside(y, h, rowByteLength);
    RowInside(h - y - 1, h, rowByteLength);
    SwapRows(data, rowSwapBuffer, rowOffset, flippedRowOffset);
  }

  /**
   * The flipY loop: for each y with y < h/2 (a real division, so the middle
   * row of an odd-height image is swapped with itself), row y and row
   * h-y-1 are exchanged through a one-row swap buffer.
   */
  method FlipY(data: array<byte>, width: nat, h: nat)
    requires data.Length == h * (width * 4)
    modifies data
    ensures RowsFlipped(old(data[..]), data[..], width * 4, h)
  {
    var rowByteLength := width * 4;
    var rowSwapBuffer := new byte[rowByteLength];
    ghost var original := data[..];
    var y := 0;
    while 2 * y < h
      invariant 0 <= y && 2 * y <= h + 1
      invariant OuterRowsSwapped(data[..], original, y, rowByteLength, h)
    {
      ghost var before := data[..];
      SwapOuterPair(data, rowSwapBuffer, y, h);
      SwapStep(before, original, y, rowByteLength, h);
      y := y + 1;
    }
    FlipComplete(data[..], original, y, rowByteLength, h);
  }

  /** Once the outer pairs meet in the middle, every row is swapped. */
  lemma {:induction false} FlipComplete(current: seq<byte>, original: seq<byte>, y: nat, len: nat, h: nat)
    requires |current| == |original| == h * len && h <= 2 * y
    requires OuterRowsSwapped(current, original, y, len, h)
    ensures RowsFlipped(original, current, len, h)
  {
    forall r, c | 0 <= r < h && 0 <= c < len
      ensures current[Cell(r, c, len, h)] == original[Cell(h - 1 - r, c, len, h)]
    {
      assert SourceRow(r, y, h) == h - 1 - r;
    }
  }
}
