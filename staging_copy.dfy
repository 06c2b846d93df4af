/**
 * The byte moves of the staging upload: `Unsafe.CopyBlock` into mapped
 * memory, either as one block or row by row at the device's row pitch.
 */
module StagingCopy {
  import opened Graphics

  /** `d` with the elements `b` written from offset `off` on; nothing else changes. */
  function Splice<T>(d: seq<T>, off: nat, b: seq<T>): (r: seq<T>)
    requires off + |b| <= |d|
    ensures |r| == |d|
  {
    d[..off] + b + d[off + |b|..]
  }

  /** Byte `i` of a splice comes from `b` inside the written range and from `d` outside it. */
  lemma SpliceAt<T>(d: seq<T>, off: nat, b: seq<T>, i: nat)
    requires off + |b| <= |d| && i < |d|
    ensures Splice(d, off, b)[i] == if off <= i < off + |b| then b[i - off] else d[i]
  {
    if i < off {
      assert Splice(d, off, b)[i] == d[..off][i];
    } else if i < off + |b| {
      assert Splice(d, off, b)[i] == (d[..off] + b)[i];
    } else {
      assert Splice(d, off, b)[i] == d[off + |b|..][i - off - |b|];
    }
  }

  /**
   * `height` rows at stride `rowPitch`, each `rowWidth` bytes wide, fit in
   * `size` bytes: the last row ends by `size` (`RowsFitMeans` in products).
   */
  predicate RowsFit(size: nat, rowPitch: nat, rowWidth: nat, height: nat) {
    rowWidth <= rowPitch && (height == 0 || Offset(height - 1, rowPitch) + rowWidth <= size)
  }

  lemma RowsFitMeans(size: nat, rowPitch: nat, rowWidth: nat, height: nat)
    ensures RowsFit(size, rowPitch, rowWidth, height)
        <==> rowWidth <= rowPitch && (height == 0 || (height - 1) * rowPitch + rowWidth <= size)
  {
    if height > 0 {
      OffsetIsProduct(height - 1, rowPitch);
    }
  }

  lemma RowsFitPrefix(size: nat, rowPitch: nat, rowWidth: nat, height: nat, k: nat)
    requires RowsFit(size, rowPitch, rowWidth, height) && k <= height
    ensures RowsFit(size, rowPitch, rowWidth, k)
  {
    if 0 < k < height {
      OffsetMonotone(k - 1, height - 1, rowPitch);
    }
  }

  /** The window of row `y` lies inside both buffers. */
  lemma RowWindowFits(dstLength: nat, srcLength: nat, rowPitch: nat, rowWidth: nat, height: nat, y: nat)
    requires RowsFit(dstLength, rowPitch, rowWidth, height) && Offset(height, rowWidth) <= srcLength
    requires y < height
    ensures Offset(y, rowPitch) + rowWidth <= dstLength && Offset(y, rowWidth) + rowWidth <= srcLength
  {
    if y + 1 < height {
      OffsetMonotone(y, height - 1, rowPitch);
      OffsetMonotone(y + 1, height, rowWidth);
    }
  }

  /**
   * Byte `i` of the destination after the first `rows` rows of the
   * row-by-row branch: row `y` of the tightly packed source (offset
   * `y*rowWidth`) is written at destination offset `y*rowPitch`, later rows
   * over earlier ones, and a byte no row covers keeps its value.
   */
  function RowCopyByte(dst: seq<Byte>, src: seq<Byte>, rowPitch: nat, rowWidth: nat, rows: nat, i: nat): Byte
    requires RowsFit(|dst|, rowPitch, rowWidth, rows)
    requires Offset(rows, rowWidth) <= |src|
    requires i < |dst|
  {
    if rows == 0 then dst[i]
    else
      var y := rows - 1;
      RowsFitPrefix(|dst|, rowPitch, rowWidth, rows, y);
      var start := Offset(y, rowPitch);
      if start <= i < start + rowWidth then src[Offset(y, rowWidth) + (i - start)]
      else RowCopyByte(dst, src, rowPitch, rowWidth, y, i)
  }

  /** The destination after the first `rows` rows of the row-by-row branch. */
  function RowCopy(dst: seq<Byte>, src: seq<Byte>, rowPitch: nat, rowWidth: nat, rows: nat): (r: seq<Byte>)
    requires RowsFit(|dst|, rowPitch, rowWidth, rows)
    requires Offset(rows, rowWidth) <= |src|
    ensures |r| == |dst|
  {
    seq(|dst|, i requires 0 <= i < |dst| => RowCopyByte(dst, src, rowPitch, rowWidth, rows, i))
  }

  /** Byte `i` lies in the destination window of row `y`. */
  predicate InRowWindow(i: nat, y: nat, rowPitch: nat, rowWidth: nat) {
    Offset(y, rowPitch) <= i < Offset(y, rowPitch) + rowWidth
  }

  /** Byte `i` lies in no row window of the first `rows` rows: it is row padding or beyond the rows. */
  predicate OutsideRows(i: nat, rowPitch: nat, rowWidth: nat, rows: nat) {
    forall y :: 0 <= y < rows ==> !InRowWindow(i, y, rowPitch, rowWidth)
  }

  /** One more row: the copy of `y + 1` rows is the copy of `y` rows with row `y` written. */
  lemma RowCopyStep(dst: seq<Byte>, src: seq<Byte>, rowPitch: nat, rowWidth: nat, y: nat)
    requires RowsFit(|dst|, rowPitch, rowWidth, y + 1)
    requires Offset(y + 1, rowWidth) <= |src|
    ensures RowsFit(|dst|, rowPitch, rowWidth, y) && Offset(y, rowWidth) <= |src|
    ensures Offset(y, rowPitch) + rowWidth <= |dst|
    ensures Offset(y, rowWidth) + rowWidth <= |src|
    ensures RowCopy(dst, src, rowPitch, rowWidth, y + 1)
         == Splice(RowCopy(dst, src, rowPitch, rowWidth, y), Offset(y, rowPitch),
                   src[Offset(y, rowWidth) .. Offset(y, rowWidth) + rowWidth])
  {
    RowsFitPrefix(|dst|, rowPitch, rowWidth, y + 1, y);
    var from := Offset(y, rowWidth);
    var next := RowCopy(dst, src, rowPitch, rowWidth, y + 1);
    var prev := RowCopy(dst, src, rowPitch, rowWidth, y);
    var spliced := Splice(prev, Offset(y, rowPitch), src[from .. from + rowWidth]);
    forall i | 0 <= i < |dst| ensures next[i] == spliced[i] {
      SpliceAt(prev, Offset(y, rowPitch), src[from .. from + rowWidth], i);
    }
    assert next == spliced;
  }

  /** After the row copy, byte `x` of row `y`'s window holds byte `x` of source row `y`. */
  lemma {:induction false} RowCopyInWindow(dst: seq<Byte>, src: seq<Byte>, rowPitch: nat, rowWidth: nat,
                                           rows: nat, y: nat, x: nat)
    requires RowsFit(|dst|, rowPitch, rowWidth, rows)
    requires Offset(rows, rowWidth) <= |src|
    requires y < rows && x < rowWidth
    ensures Offset(y, rowPitch) + x < |dst| && Offset(y, rowWidth) + x < |src|
    ensures RowCopyByte(dst, src, rowPitch, rowWidth, rows, Offset(y, rowPitch) + x) == src[Offset(y, rowWidth) + x]
  {
    RowWindowFits(|dst|, |src|, rowPitch, rowWidth, rows, y);
    if y < rows - 1 {
      RowsFitPrefix(|dst|, rowPitch, rowWidth, rows, rows - 1);
      OffsetMonotone(y, rows - 1, rowPitch);
      RowCopyInWindow(dst, src, rowPitch, rowWidth, rows - 1, y, x);
    }
  }

  /** After the row copy, every byte outside the row windows keeps its old value. */
  lemma {:induction false} RowCopyOutside(dst: seq<Byte>, src: seq<Byte>, rowPitch: nat, rowWidth: nat,
                                          rows: nat, i: nat)
    requires RowsFit(|dst|, rowPitch, rowWidth, rows)
    requires Offset(rows, rowWidth) <= |src|
    requires i < |dst| && OutsideRows(i, rowPitch, rowWidth, rows)
    ensures RowCopyByte(dst, src, rowPitch, rowWidth, rows, i) == dst[i]
  {
    if rows > 0 {
      RowsFitPrefix(|dst|, rowPitch, rowWidth, rows, rows - 1);
      assert !InRowWindow(i, rows - 1, rowPitch, rowWidth);
      RowCopyOutside(dst, src, rowPitch, rowWidth, rows - 1, i);
    }
  }

  /** The bulk branch: `totalBytes` bytes from source offset 0 to destination offset 0. */
  function BulkCopy(dst: seq<Byte>, src: seq<Byte>, totalBytes: nat): (r: seq<Byte>)
    requires totalBytes <= |dst| && totalBytes <= |src|
    ensures |r| == |dst|
    ensures r[..totalBytes] == src[..totalBytes]
    ensures r[totalBytes..] == dst[totalBytes..]
  {
    Splice(dst, 0, src[..totalBytes])
  }

  /** With the pitch equal to the packed width, the first `rows` rows fill bytes `0 .. rows*rowWidth` from the source. */
  lemma {:induction false} RowCopyByteIsBulk(dst: seq<Byte>, src: seq<Byte>, rowWidth: nat, rows: nat, i: nat)
    requires RowsFit(|dst|, rowWidth, rowWidth, rows)
    requires Offset(rows, rowWidth) <= |src| && i < |dst|
    ensures RowCopyByte(dst, src, rowWidth, rowWidth, rows, i) == if i < Offset(rows, rowWidth) then src[i] else dst[i]
  {
    if rows > 0 {
      RowsFitPrefix(|dst|, rowWidth, rowWidth, rows, rows - 1);
      RowCopyByteIsBulk(dst, src, rowWidth, rows - 1, i);
    }
  }

  /** When the pitch equals the packed row width, copying row by row is one bulk copy of all rows. */
  lemma RowCopyIsBulk(dst: seq<Byte>, src: seq<Byte>, rowWidth: nat, rows: nat)
    requires RowsFit(|dst|, rowWidth, rowWidth, rows)
    requires Offset(rows, rowWidth) <= |src|
    ensures Offset(rows, rowWidth) <= |dst|
    ensures RowCopy(dst, src, rowWidth, rowWidth, rows) == BulkCopy(dst, src, Offset(rows, rowWidth))
  {
    if rows > 0 {
      RowWindowFits(|dst|, |src|, rowWidth, rowWidth, rows, rows - 1);
    }
    var total := Offset(rows, rowWidth);
    var r, bulk := RowCopy(dst, src, rowWidth, rowWidth, rows), BulkCopy(dst, src, total);
    forall i | 0 <= i < |dst| ensures r[i] == bulk[i] {
      RowCopyByteIsBulk(dst, src, rowWidth, rows, i);
      SpliceAt(dst, 0, src[..total], i);
    }
    assert r == bulk;
  }

  /** Writing `a` at offset 0 and then `b` right after it writes `a + b` at offset 0. */
  lemma SpliceMerge<T>(d: seq<T>, a: seq<T>, b: seq<T>)
    requires |a| + |b| <= |d|
    ensures Splice(Splice(d, 0, a), |a|, b) == Splice(d, 0, a + b)
  {
    var prev := Splice(d, 0, a);
    var r := Splice(prev, |a|, b);
    var whole := Splice(d, 0, a + b);
    forall i | 0 <= i < |d| ensures r[i] == whole[i] {
      SpliceAt(prev, |a|, b, i);
      SpliceAt(d, 0, a, i);
      SpliceAt(d, 0, a + b, i);
    }
  }

  /**
   * What `WriteToStagingAndCopy` leaves in the mapped memory: one bulk copy
   * of `totalBytes` when the device's pitch equals the packed row width,
   * otherwise `height` rows at the device's pitch.
   */
  predicate StagingArgsOk(dstLength: nat, srcLength: nat, rowPitch: nat, rowWidth: nat, height: nat, totalBytes: nat) {
    && totalBytes == height * rowWidth
    && totalBytes <= srcLength
    && RowsFit(dstLength, rowPitch, rowWidth, height)
  }

  function StagedBytes(dst: seq<Byte>, src: seq<Byte>, rowPitch: nat, rowWidth: nat, height: nat, totalBytes: nat): (r: seq<Byte>)
    requires StagingArgsOk(|dst|, |src|, rowPitch, rowWidth, height, totalBytes)
    ensures |r| == |dst|
  {
    OffsetIsProduct(height, rowWidth);
    if rowWidth == rowPitch then
      RowCopyIsBulk(dst, src, rowWidth, height);
      BulkCopy(dst, src, totalBytes)
    else
      RowCopy(dst, src, rowPitch, rowWidth, height)
  }

  /** Byte `x` of source row `y` sits at byte `x` of destination row `y`. */
  predicate RowLanded(r: seq<Byte>, src: seq<Byte>, rowPitch: nat, rowWidth: nat, y: nat, x: nat) {
    y * rowPitch + x < |r| && y * rowWidth + x < |src| && r[y * rowPitch + x] == src[y * rowWidth + x]
  }

  /** The staged bytes are the row-by-row copy whichever branch runs. */
  lemma StagedBytesIsRowCopy(dst: seq<Byte>, src: seq<Byte>, rowPitch: nat, rowWidth: nat, height: nat, totalBytes: nat)
    requires StagingArgsOk(|dst|, |src|, rowPitch, rowWidth, height, totalBytes)
    ensures Offset(height, rowWidth) <= |src|
    ensures StagedBytes(dst, src, rowPitch, rowWidth, height, totalBytes) == RowCopy(dst, src, rowPitch, rowWidth, height)
  {
    OffsetIsProduct(height, rowWidth);
    if rowWidth == rowPitch {
      RowCopyIsBulk(dst, src, rowWidth, height);
    }
  }

  /**
   * Whichever branch runs, row `y` of the source lands in row `y`'s window
   * and every other mapped byte is left as it was.
   */
  lemma StagedBytesRows(dst: seq<Byte>, src: seq<Byte>, rowPitch: nat, rowWidth: nat, height: nat, totalBytes: nat)
    requires StagingArgsOk(|dst|, |src|, rowPitch, rowWidth, height, totalBytes)
    ensures var r := StagedBytes(dst, src, rowPitch, rowWidth, height, totalBytes);
      && (forall y, x :: 0 <= y < height && 0 <= x < rowWidth ==> RowLanded(r, src, rowPitch, rowWidth, y, x))
      && (forall i :: 0 <= i < |dst| && OutsideRows(i, rowPitch, rowWidth, height) ==> r[i] == dst[i])
  {
    StagedBytesIsRowCopy(dst, src, rowPitch, rowWidth, height, totalBytes);
    var r := RowCopy(dst, src, rowPitch, rowWidth, height);
    forall y, x | 0 <= y < height && 0 <= x < rowWidth
      ensures RowLanded(r, src, rowPitch, rowWidth, y, x)
    {
      RowCopyInWindow(dst, src, rowPitch, rowWidth, height, y, x);
      OffsetIsProduct(y, rowPitch);
      OffsetIsProduct(y, rowWidth);
    }
    forall i | 0 <= i < |dst| && OutsideRows(i, rowPitch, rowWidth, height)
      ensures r[i] == dst[i]
    {
      RowCopyOutside(dst, src, rowPitch, rowWidth, height, i);
    }
  }

  /** Whichever branch runs, the window of row `y` holds exactly source row `y`. */
  lemma StagedRowWindow(dst: seq<Byte>, src: seq<Byte>, rowPitch: nat, rowWidth: nat, height: nat, totalBytes: nat, y: nat)
    requires StagingArgsOk(|dst|, |src|, rowPitch, rowWidth, height, totalBytes) && y < height
    ensures y * rowPitch + rowWidth <= |dst| && y * rowWidth + rowWidth <= |src|
    ensures StagedBytes(dst, src, rowPitch, rowWidth, height, totalBytes)[y * rowPitch .. y * rowPitch + rowWidth]
            == src[y * rowWidth .. y * rowWidth + rowWidth]
  {
    StagedBytesIsRowCopy(dst, src, rowPitch, rowWidth, height, totalBytes);
    RowWindowFits(|dst|, |src|, rowPitch, rowWidth, height, y);
    OffsetIsProduct(y, rowPitch);
    OffsetIsProduct(y, rowWidth);
    var r := RowCopy(dst, src, rowPitch, rowWidth, height);
    var dstStart, srcStart := Offset(y, rowPitch), Offset(y, rowWidth);
    var landed, wanted := r[dstStart .. dstStart + rowWidth], src[srcStart .. srcStart + rowWidth];
    forall x | 0 <= x < rowWidth ensures landed[x] == wanted[x] {
      RowCopyInWindow(dst, src, rowPitch, rowWidth, height, y, x);
    }
    assert landed == wanted;
  }

  /** `Unsafe.CopyBlock(dst + dstOffset, src + srcOffset, count)`. */
  method CopyBlock(dst: array<Byte>, dstOffset: nat, src: seq<Byte>, srcOffset: nat, count: nat)
    requires dstOffset + count <= dst.Length && srcOffset + count <= |src|
    modifies dst
    ensures dst[..] == Splice(old(dst[..]), dstOffset, src[srcOffset .. srcOffset + count])
  {
    forall i | 0 <= i < count {
      dst[dstOffset + i] := src[srcOffset + i];
    }
  }

  /**
   * The copy step of `WriteToStagingAndCopy`: compare the packed row width
   * with the mapped region's pitch and copy in bulk or row by row.
   */
  method CopyToMapped(dst: array<Byte>, rowPitch: nat, src: seq<Byte>, rowWidth: nat, height: nat, totalBytes: nat)
    requires StagingArgsOk(dst.Length, |src|, rowPitch, rowWidth, height, totalBytes)
    modifies dst
    ensures dst[..] == StagedBytes(old(dst[..]), src, rowPitch, rowWidth, height, totalBytes)
  {
    OffsetIsProduct(height, rowWidth);
    if rowWidth == rowPitch {
      RowCopyIsBulk(dst[..], src, rowWidth, height);
      CopyBlock(dst, 0, src, 0, totalBytes);
    } else {
      CopyRows(dst, rowPitch, src, rowWidth, height);
    }
  }

  /** The row-by-row branch: `height` copies of `rowWidth` bytes, advancing by the pitch and the packed width. */
  method CopyRows(dst: array<Byte>, rowPitch: nat, src: seq<Byte>, rowWidth: nat, height: nat)
    requires RowsFit(dst.Length, rowPitch, rowWidth, height) && Offset(height, rowWidth) <= |src|
    modifies dst
    ensures dst[..] == RowCopy(old(dst[..]), src, rowPitch, rowWidth, height)
  {
    ghost var initial := dst[..];
    for y := 0 to height
      invariant RowsFit(|initial|, rowPitch, rowWidth, y)
      invariant Offset(y, rowWidth) <= |src|
      invariant dst[..] == RowCopy(initial, src, rowPitch, rowWidth, y)
    {
      RowsFitPrefix(|initial|, rowPitch, rowWidth, height, y + 1);
      if y + 1 < height {
        OffsetMonotone(y + 1, height, rowWidth);
      }
      CopyRow(dst, initial, rowPitch, src, rowWidth, y);
    }
  }

  /** One pass of the row loop: source row `y` to destination offset `y * rowPitch`. */
  method CopyRow(dst: array<Byte>, ghost initial: seq<Byte>, rowPitch: nat, src: seq<Byte>, rowWidth: nat, y: nat)
    requires |initial| == dst.Length
    requires RowsFit(dst.Length, rowPitch, rowWidth, y + 1) && Offset(y + 1, rowWidth) <= |src|
    requires RowsFit(dst.Length, rowPitch, rowWidth, y) && Offset(y, rowWidth) <= |src|
    requires dst[..] == RowCopy(initial, src, rowPitch, rowWidth, y)
    modifies dst
    ensures dst[..] == RowCopy(initial, src, rowPitch, rowWidth, y + 1)
  {
    RowCopyStep(initial, src, rowPitch, rowWidth, y);
    OffsetIsProduct(y, rowPitch);
    OffsetIsProduct(y, rowWidth);
    CopyBlock(dst, y * rowPitch, src, y * rowWidth, rowWidth);
  }
}
