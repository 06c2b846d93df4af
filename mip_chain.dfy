/**
 * The mip-chain record of `ImageSharpTexture`: decoded images, one per mip
 * level, with the pixel format chosen when it is built, and the row gather
 * that copies a non-contiguous image into one flat pixel buffer.
 */
module MipChain {
  import opened Graphics

  /**
   * A decoded `Image<Rgba32>`: its size, its pixel rows, and whether the
   * decoder keeps all rows in one contiguous block
   * (`DangerousTryGetSinglePixelMemory` succeeds).
   */
  datatype Image = Image(width: nat, height: nat, rows: seq<seq<Rgba32>>, contiguous: bool)

  /** An image has at least one pixel and `height` rows of `width` pixels each. */
  predicate WellFormed(img: Image) {
    && img.width >= 1
    && img.height >= 1
    && |img.rows| == img.height
    && forall y :: 0 <= y < |img.rows| ==> |img.rows[y]| == img.width
  }

  /** The pixels of a list of rows in row-major order. */
  function Pixels(rows: seq<seq<Rgba32>>): seq<Rgba32>
  {
    if rows == [] then [] else Pixels(rows[..|rows| - 1]) + rows[|rows| - 1]
  }

  /** Rows of `w` pixels each give `w` pixels per row, counted row by row. */
  lemma {:induction false} PixelsSize(rows: seq<seq<Rgba32>>, w: nat)
    requires forall y :: 0 <= y < |rows| ==> |rows[y]| == w
    ensures |Pixels(rows)| == Offset(|rows|, w)
  {
    if rows != [] {
      PixelsSize(rows[..|rows| - 1], w);
    }
  }

  /** Rows of `w` pixels each give `w` pixels per row. */
  lemma PixelsLength(rows: seq<seq<Rgba32>>, w: nat)
    requires forall y :: 0 <= y < |rows| ==> |rows[y]| == w
    ensures |Pixels(rows)| == |rows| * w
  {
    PixelsSize(rows, w);
    OffsetIsProduct(|rows|, w);
  }

  /** Row `y` occupies the slots from `Offset(y, w)` on, `w` of them. */
  lemma {:induction false} PixelsWindow(rows: seq<seq<Rgba32>>, w: nat, y: nat)
    requires forall j :: 0 <= j < |rows| ==> |rows[j]| == w
    requires y < |rows|
    ensures |Pixels(rows)| == Offset(|rows|, w)
    ensures Offset(y, w) + w <= |Pixels(rows)|
    ensures Pixels(rows)[Offset(y, w) .. Offset(y, w) + w] == rows[y]
  {
    PixelsSize(rows, w);
    var last := |rows| - 1;
    var init := rows[..last];
    PixelsSize(init, w);
    var front := Pixels(init);
    assert Pixels(rows) == front + rows[last];
    if y < last {
      PixelsWindow(init, w, y);
    }
  }

  /** Row `y` occupies the slots `[y*w, y*w + w)` of the row-major layout. */
  lemma PixelsRow(rows: seq<seq<Rgba32>>, w: nat, y: nat)
    requires forall j :: 0 <= j < |rows| ==> |rows[j]| == w
    requires y < |rows|
    ensures |Pixels(rows)| == |rows| * w
    ensures y * w + w <= |Pixels(rows)|
    ensures Pixels(rows)[y * w .. y * w + w] == rows[y]
  {
    PixelsWindow(rows, w, y);
    OffsetIsProduct(|rows|, w);
    OffsetIsProduct(y, w);
  }

  /** Pixel `x` of row `y` sits at index `y*w + x` of the row-major layout. */
  lemma PixelsAt(rows: seq<seq<Rgba32>>, w: nat, y: nat, x: nat)
    requires forall j :: 0 <= j < |rows| ==> |rows[j]| == w
    requires y < |rows| && x < w
    ensures y * w + x < |Pixels(rows)|
    ensures Pixels(rows)[y * w + x] == rows[y][x]
  {
    PixelsWindow(rows, w, y);
    OffsetIsProduct(y, w);
    var start := Offset(y, w);
    assert Pixels(rows)[start .. start + w][x] == Pixels(rows)[start + x];
  }

  /** The row windows of a `w`-wide layout: an earlier row ends before a later one starts. */
  lemma RowWindowsDisjoint(w: nat, y: nat, y': nat)
    requires y < y'
    ensures y * w + w <= y' * w
  {
    OffsetMonotone(y, y', w);
    OffsetIsProduct(y, w);
    OffsetIsProduct(y', w);
  }

  /**
   * The row windows cover the layout: slot `i` of `h` rows of `w` pixels is
   * pixel `i % w` of row `i / w`.
   */
  lemma PixelsCover(rows: seq<seq<Rgba32>>, w: nat, i: nat)
    requires forall j :: 0 <= j < |rows| ==> |rows[j]| == w
    requires i < |rows| * w
    ensures w >= 1 && i / w < |rows| && i % w < w
    ensures |Pixels(rows)| == |rows| * w
    ensures Pixels(rows)[i] == rows[i / w][i % w]
  {
    PixelsLength(rows, w);
    RowOfSlot(i, w, |rows|);
    PixelsAt(rows, w, i / w, i % w);
  }

  /** Slot `i` below `h*w` is in row `i / w < h`, at column `i % w`. */
  lemma RowOfSlot(i: nat, w: nat, h: nat)
    requires i < h * w
    ensures w >= 1 && i / w < h && i % w < w && i == (i / w) * w + i % w
  {
    if w > 0 && i / w >= h {
      MulMonotone(h, i / w, w);
    }
  }

  /** The bytes the upload hands to the device for one level: the pixels row by row. */
  function LevelBytes(img: Image): seq<Byte>
  {
    PixelBytes(Pixels(img.rows))
  }

  /** `PixelSize` bytes per pixel: the byte offset of row `y` is `PixelSize` times its pixel offset. */
  lemma {:induction false} OffsetInBytes(y: nat, w: nat)
    ensures PixelSize * Offset(y, w) == Offset(y, PixelSize * w)
  {
    if y > 0 {
      OffsetInBytes(y - 1, w);
    }
  }

  /**
   * A level holds `4*w*h` bytes, and the bytes of row `y` are at
   * `[y*4w, y*4w + 4w)`.
   */
  lemma LevelBytesRow(img: Image, y: nat)
    requires WellFormed(img) && y < img.height
    ensures |LevelBytes(img)| == PixelSize * img.width * img.height
    ensures y * (PixelSize * img.width) + PixelSize * img.width <= |LevelBytes(img)|
    ensures LevelBytes(img)[y * (PixelSize * img.width) .. y * (PixelSize * img.width) + PixelSize * img.width]
            == PixelBytes(img.rows[y])
  {
    var w := img.width;
    var rw := PixelSize * w;
    var rows := img.rows;
    PixelsWindow(rows, w, y);
    var all := Pixels(rows);
    var start := Offset(y, w);
    var before, row, after := all[..start], all[start .. start + w], all[start + w..];
    assert all == before + row + after;
    PixelBytesAppend(before + row, after);
    PixelBytesAppend(before, row);
    var bb, rb := PixelBytes(before), PixelBytes(row);
    var lb := LevelBytes(img);
    assert lb[|bb| .. |bb| + |rb|] == rb;
    OffsetInBytes(y, w);
    OffsetInBytes(img.height, w);
    OffsetIsProduct(y, rw);
    OffsetIsProduct(img.height, rw);
  }

  /**
   * `ImageSharpTexture`: the chain of mip levels (level 0 first) and the
   * pixel format of all of them. Both are fixed when the value is built.
   */
  datatype ImageSharpTexture = ImageSharpTexture(images: seq<Image>, format: PixelFormat)

  /**
   * The constructor from an image. `generated` is what the external mip
   * generator returns for `image`; it is used only when `mipmap` is set.
   */
  function FromImage(image: Image, mipmap: bool, srgb: bool, generated: seq<Image>): (t: ImageSharpTexture)
    ensures t.format == R8_G8_B8_A8_UNorm_SRgb <==> srgb
    ensures t.format == R8_G8_B8_A8_UNorm <==> !srgb
    ensures !mipmap ==> |t.images| == 1 && t.images[0] == image
    ensures mipmap ==> t.images == generated
  {
    var format := if srgb then R8_G8_B8_A8_UNorm_SRgb else R8_G8_B8_A8_UNorm;
    if mipmap then ImageSharpTexture(generated, format) else ImageSharpTexture([image], format)
  }

  /** The width of the largest image in the chain. */
  function Width(t: ImageSharpTexture): (w: nat)
    requires |t.images| >= 1
    ensures ValidChain(t) ==> w >= 1
  {
    t.images[0].width
  }

  /** The height of the largest image in the chain. */
  function Height(t: ImageSharpTexture): (h: nat)
    requires |t.images| >= 1
    ensures ValidChain(t) ==> h >= 1
  {
    t.images[0].height
  }

  /** The number of levels in the chain. */
  function MipLevels(t: ImageSharpTexture): (n: nat)
    ensures ValidChain(t) ==> n >= 1
  {
    |t.images|
  }

  /** The size of each pixel, in bytes. */
  function PixelSizeInBytes(t: ImageSharpTexture): (n: nat)
    ensures forall p: Rgba32 :: |PixelToBytes(p)| == n
  {
    PixelSize
  }

  /**
   * The constructors that leave out `srgb` (`ImageSharpTexture(image, mipmap = true)`
   * and the path and stream ones): a linear `R8_G8_B8_A8_UNorm` chain.
   */
  function FromImageLinear(image: Image, mipmap: bool, generated: seq<Image>): (t: ImageSharpTexture)
    ensures t.format == R8_G8_B8_A8_UNorm
    ensures !mipmap ==> t.images == [image]
    ensures mipmap ==> t.images == generated
  {
    FromImage(image, mipmap, false, generated)
  }

  /** With every default taken, the chain is the generated mip chain in linear format. */
  lemma DefaultConstructor(image: Image, generated: seq<Image>)
    ensures FromImageLinear(image, true, generated) == ImageSharpTexture(generated, R8_G8_B8_A8_UNorm)
  {
  }

  /** Without mip generation the chain is the one input image, and the record's size is that image's. */
  lemma SingleLevelChain(image: Image, srgb: bool, generated: seq<Image>)
    ensures var t := FromImage(image, false, srgb, generated);
      && MipLevels(t) == 1
      && Width(t) == image.width && Height(t) == image.height
      && t.images == [image]
  {
  }

  /** Every level is well formed (at least one level, as the record's size getters need). */
  predicate ValidChain(t: ImageSharpTexture) {
    && |t.images| >= 1
    && forall k :: 0 <= k < |t.images| ==> WellFormed(t.images[k])
  }

  /**
   * The halving rule of the chain's documentation: level `k` is level 0's
   * size halved `k` times, never below 1. Only the staging upload needs it.
   */
  predicate HalvingChain(t: ImageSharpTexture) {
    && ValidChain(t)
    && forall k :: 0 <= k < |t.images| ==>
         && t.images[k].width == MipExtent(t.images[0].width, k)
         && t.images[k].height == MipExtent(t.images[0].height, k)
  }
}
