/**
 * The two ways `ImageSharpTexture` moves its mip chain into device memory:
 * one `UpdateTexture` call per level (the path `CreateDeviceTexture` takes),
 * or a staging texture that is mapped, filled at the device's row pitch,
 * unmapped and copied to the sampled texture by a command list.
 */
module TextureUpload {
  import opened Graphics
  import opened MipChain
  import opened StagingCopy
  import opened Device

  /** `Span.CopyTo`: the row is written into `dst` from `offset` on. */
  method CopySpan(row: seq<Rgba32>, dst: array<Rgba32>, offset: nat)
    requires offset + |row| <= dst.Length
    modifies dst
    ensures dst[..] == Splice(old(dst[..]), offset, row)
  {
    forall i | 0 <= i < |row| {
      dst[offset + i] := row[i];
    }
    forall i | 0 <= i < dst.Length ensures dst[..][i] == Splice(old(dst[..]), offset, row)[i] {
      SpliceAt(old(dst[..]), offset, row, i);
    }
  }

  /** One more row of the prefix appends that row's pixels. */
  lemma PixelsPrefixStep(rows: seq<seq<Rgba32>>, y: nat)
    requires y < |rows|
    ensures Pixels(rows[..y + 1]) == Pixels(rows[..y]) + rows[y]
  {
    var p := rows[..y + 1];
    assert p[..|p| - 1] == rows[..y];
  }

  /**
   * The row gather both upload paths run for a non-contiguous image: row
   * `y` is copied into slots `[y*w, y*w + w)` of `tmp`; the slots past
   * `w*h` (a pooled array may be longer) are not touched.
   */
  method GatherRows(img: Image, tmp: array<Rgba32>)
    requires WellFormed(img) && img.width * img.height <= tmp.Length
    modifies tmp
    ensures |Pixels(img.rows)| == img.width * img.height
    ensures tmp[..] == Splice(old(tmp[..]), 0, Pixels(img.rows))
  {
    var w, h := img.width, img.height;
    ghost var initial := tmp[..];
    for y := 0 to h
      invariant |Pixels(img.rows[..y])| == y * w <= tmp.Length
      invariant tmp[..] == Splice(initial, 0, Pixels(img.rows[..y]))
    {
      ghost var done := Pixels(img.rows[..y]);
      PixelsPrefixStep(img.rows, y);
      RowEnd(w, y);
      MulMonotone(y + 1, h, w);
      CopySpan(img.rows[y], tmp, y * w);
      SpliceMerge(initial, done, img.rows[y]);
    }
    assert img.rows[..h] == img.rows;
  }

  /** After the gather, pixel `x` of row `y` is at slot `y*w + x`. */
  lemma GatheredPixel(img: Image, before: seq<Rgba32>, y: nat, x: nat)
    requires WellFormed(img) && img.width * img.height <= |before|
    requires y < img.height && x < img.width
    ensures |Pixels(img.rows)| == img.width * img.height && y * img.width + x < |before|
    ensures Splice(before, 0, Pixels(img.rows))[y * img.width + x] == img.rows[y][x]
  {
    PixelsAt(img.rows, img.width, y, x);
    PixelsLength(img.rows, img.width);
    SpliceAt(before, 0, Pixels(img.rows), y * img.width + x);
  }

  /** The source bytes a level hands to the device: its own memory if contiguous, else the gathered copy. */
  method LevelSource(img: Image) returns (src: seq<Byte>)
    requires WellFormed(img)
    ensures src == LevelBytes(img)
  {
    if img.contiguous {
      src := LevelBytes(img);
    } else {
      var tmp := new Rgba32[img.width * img.height];
      GatherRows(img, tmp);
      PixelsLength(img.rows, img.width);
      assert tmp[..] == Pixels(img.rows);
      src := PixelBytes(tmp[..]);
    }
  }

  // ---------------------------------------------------------------------
  // The update path
  // ---------------------------------------------------------------------

  /** The description of the sampled texture both paths create. */
  function SampledDescription(t: ImageSharpTexture): TextureDescription
    requires ValidChain(t)
  {
    Texture2DDescription(Width(t), Height(t), MipLevels(t), 1, t.format, {Sampled})
  }

  /** The `UpdateTexture` call the update path makes for level `k` of texture `tex`. */
  function UpdateCallFor(t: ImageSharpTexture, tex: nat, k: nat): Call
    requires ValidChain(t) && k < |t.images|
  {
    var img := t.images[k];
    Call.UpdateTexture(tex, LevelBytes(img), PixelSize * img.width * img.height,
                       0, 0, 0, img.width, img.height, 1, k, 0)
  }

  /** The calls the update path makes for levels `0 .. n-1`, in that order. */
  function UpdateCalls(t: ImageSharpTexture, tex: nat, n: nat): (r: seq<Call>)
    requires ValidChain(t) && n <= |t.images|
    ensures |r| == n
  {
    if n == 0 then [] else UpdateCalls(t, tex, n - 1) + [UpdateCallFor(t, tex, n - 1)]
  }

  lemma {:induction false} UpdateCallsAt(t: ImageSharpTexture, tex: nat, n: nat, k: nat)
    requires ValidChain(t) && k < n <= |t.images|
    ensures UpdateCalls(t, tex, n)[k] == UpdateCallFor(t, tex, k)
  {
    if k < n - 1 {
      UpdateCallsAt(t, tex, n - 1, k);
    }
  }

  /**
   * Call `k` of the update path targets mip level `k`, array layer 0, at
   * origin (0,0,0) with depth 1, over the whole `w`×`h` level, and carries
   * `4*w*h` bytes.
   */
  lemma UpdatePathLevel(t: ImageSharpTexture, tex: nat, k: nat)
    requires ValidChain(t) && k < |t.images|
    ensures var c := UpdateCalls(t, tex, |t.images|)[k];
      var img := t.images[k];
      && c == UpdateCallFor(t, tex, k)
      && c.UpdateTexture? && c.texture == tex
      && c.mipLevel == k && c.arrayLayer == 0
      && c.x == 0 && c.y == 0 && c.z == 0 && c.depth == 1
      && c.width == img.width && c.height == img.height
      && c.sizeInBytes == PixelSize * img.width * img.height == |c.data|
  {
    UpdateCallsAt(t, tex, |t.images|, k);
    LevelBytesRow(t.images[k], 0);
  }

  /** The bytes of update call `k` hold row `y` of level `k` at `[y*4w, y*4w + 4w)`. */
  lemma UpdatePathRow(t: ImageSharpTexture, tex: nat, k: nat, y: nat)
    requires ValidChain(t) && k < |t.images| && y < t.images[k].height
    ensures var data, rowWidth := UpdateCallFor(t, tex, k).data, PixelSize * t.images[k].width;
      && y * rowWidth + rowWidth <= |data|
      && data[y * rowWidth .. y * rowWidth + rowWidth] == PixelBytes(t.images[k].rows[y])
  {
    LevelBytesRow(t.images[k], y);
  }

  /**
   * `CreateTextureViaUpdate`: create a sampled texture the size of level 0
   * with all levels, then make one `UpdateTexture` call per level in
   * increasing level order.
   */
  method CreateTextureViaUpdate(t: ImageSharpTexture, gd: GraphicsDevice) returns (tex: Texture)
    requires ValidChain(t)
    modifies gd
    ensures tex == Texture(old(gd.nextId), SampledDescription(t)) && gd.nextId == old(gd.nextId) + 1
    ensures gd.calls == old(gd.calls) + [Call.CreateTexture(tex.desc, tex.id)] + UpdateCalls(t, tex.id, MipLevels(t))
  {
    tex := gd.CreateTexture(SampledDescription(t));
    for level := 0 to MipLevels(t)
      invariant tex == Texture(old(gd.nextId), SampledDescription(t)) && gd.nextId == old(gd.nextId) + 1
      invariant gd.calls == old(gd.calls) + [Call.CreateTexture(tex.desc, tex.id)] + UpdateCalls(t, tex.id, level)
    {
      UpdateLevel(t, gd, tex, level);
      assert UpdateCalls(t, tex.id, level + 1) == UpdateCalls(t, tex.id, level) + [UpdateCallFor(t, tex.id, level)];
    }
  }

  /** One pass of the update loop: the level's pixels handed to `UpdateTexture` for mip `level`, layer 0. */
  method UpdateLevel(t: ImageSharpTexture, gd: GraphicsDevice, tex: Texture, level: nat)
    requires ValidChain(t) && level < MipLevels(t)
    modifies gd
    ensures gd.nextId == old(gd.nextId)
    ensures gd.calls == old(gd.calls) + [UpdateCallFor(t, tex.id, level)]
  {
    var img := t.images[level];
    var w, h := img.width, img.height;
    var sizeInBytes := PixelSizeInBytes(t) * w * h;
    LevelBytesRow(img, 0);
    var src := LevelSource(img);
    assert src[..sizeInBytes] == src;
    gd.UpdateTexture(tex, src, sizeInBytes, 0, 0, 0, w, h, 1, level, 0);
  }

  /** `CreateDeviceTexture` always takes the update path. */
  method CreateDeviceTexture(t: ImageSharpTexture, gd: GraphicsDevice) returns (tex: Texture)
    requires ValidChain(t)
    modifies gd
    ensures tex == Texture(old(gd.nextId), SampledDescription(t)) && gd.nextId == old(gd.nextId) + 1
    ensures gd.calls == old(gd.calls) + [Call.CreateTexture(tex.desc, tex.id)] + UpdateCalls(t, tex.id, MipLevels(t))
  {
    tex := CreateTextureViaUpdate(t, gd);
  }

  // ---------------------------------------------------------------------
  // The staging path
  // ---------------------------------------------------------------------

  /**
   * The three calls `WriteToStagingAndCopy` makes for one level: map the
   * staging level for writing, unmap it holding the source copied at the
   * reported pitch, then record a `w`×`h`×1 copy of that level from the
   * staging texture to the sampled one.
   */
  predicate LevelStep(seg: seq<Call>, pitchOf: nat -> nat, staging: nat, ret: nat, cl: nat,
                      level: nat, width: nat, height: nat, src: seq<Byte>)
  {
    var rowWidth := PixelSize * width;
    && |seg| == 3
    && seg[0].Map?
    && seg[0] == Call.Map(staging, Write, level, pitchOf(rowWidth), seg[0].initial)
    && StagingArgsOk(|seg[0].initial|, |src|, seg[0].rowPitch, rowWidth, height, height * rowWidth)
    && seg[1] == Call.Unmap(staging, level,
                            StagedBytes(seg[0].initial, src, seg[0].rowPitch, rowWidth, height, height * rowWidth))
    && seg[2] == Call.CopyTexture(cl, staging, 0, 0, 0, level, 0, ret, 0, 0, 0, level, 0, width, height, 1, 1)
  }

  /** A mapped region of `rowPitch * height` bytes holds `height` rows at that pitch. */
  lemma MappedRegionFits(rowPitch: nat, rowWidth: nat, height: nat)
    requires rowWidth <= rowPitch
    ensures RowsFit(rowPitch * height, rowPitch, rowWidth, height)
  {
    if height > 0 {
      OffsetIsProduct(height, rowPitch);
    }
  }

  /**
   * `WriteToStagingAndCopy` for one level of `width`×`height` pixels whose
   * bytes are `src`.
   */
  method WriteToStagingAndCopy(gd: GraphicsDevice, staging: Texture, ret: Texture, cl: nat, level: nat,
                               width: nat, height: nat, src: seq<Byte>, rowWidth: nat, totalBytes: nat)
    requires gd.Valid()
    requires width == MipExtent(staging.desc.width, level) && height == MipExtent(staging.desc.height, level)
    requires rowWidth == width * PixelSize && totalBytes == width * height * PixelSize
    requires totalBytes <= |src|
    modifies gd
    ensures gd.nextId == old(gd.nextId)
    ensures |gd.calls| == |old(gd.calls)| + 3 && gd.calls[..|old(gd.calls)|] == old(gd.calls)
    ensures LevelStep(gd.calls[|old(gd.calls)|..], gd.pitchOf, staging.id, ret.id, cl, level, width, height, src)
  {
    var mapped := gd.Map(staging, Write, level);
    ghost var initial := mapped.data[..];
    ghost var mapCall := gd.calls[|gd.calls| - 1];
    MappedRegionFits(mapped.rowPitch, rowWidth, height);
    CopyToMapped(mapped.data, mapped.rowPitch, src, rowWidth, height, totalBytes);
    gd.Unmap(staging, level, mapped);
    gd.CopyTexture(cl, staging, 0, 0, 0, level, 0, ret, 0, 0, 0, level, 0, width, height, 1, 1);
    ghost var seg := gd.calls[|old(gd.calls)|..];
    assert seg[0] == mapCall;
  }

  /** The description of the staging texture: the sampled one's, with Staging usage. */
  function StagingDescription(t: ImageSharpTexture): TextureDescription
    requires ValidChain(t)
  {
    Texture2DDescription(Width(t), Height(t), MipLevels(t), 1, t.format, {Staging})
  }

  /** Calls `3k .. 3k+2` of `seg` are the `WriteToStagingAndCopy` calls for level `k`. */
  predicate LevelRecorded(seg: seq<Call>, t: ImageSharpTexture, pitchOf: nat -> nat,
                          staging: nat, ret: nat, cl: nat, k: nat)
    requires ValidChain(t)
  {
    && k < |t.images|
    && 3 * k + 3 <= |seg|
    && LevelStep(seg[3 * k .. 3 * k + 3], pitchOf, staging, ret, cl, k,
                 t.images[k].width, t.images[k].height, LevelBytes(t.images[k]))
  }

  /** `seg` holds the three calls of every level, in increasing level order. */
  predicate StagingLevels(seg: seq<Call>, t: ImageSharpTexture, pitchOf: nat -> nat,
                          staging: nat, ret: nat, cl: nat, n: nat)
    requires ValidChain(t)
  {
    && |seg| == 3 * n
    && forall k :: 0 <= k < n ==> LevelRecorded(seg, t, pitchOf, staging, ret, cl, k)
  }

  /** Appending level `n`'s three calls extends the per-level record by one level. */
  lemma StagingLevelsGrow(levelCalls: seq<Call>, seg: seq<Call>, t: ImageSharpTexture, pitchOf: nat -> nat,
                          staging: nat, ret: nat, cl: nat, n: nat)
    requires ValidChain(t) && n < |t.images|
    requires StagingLevels(levelCalls, t, pitchOf, staging, ret, cl, n)
    requires LevelStep(seg, pitchOf, staging, ret, cl, n, t.images[n].width, t.images[n].height, LevelBytes(t.images[n]))
    ensures StagingLevels(levelCalls + seg, t, pitchOf, staging, ret, cl, n + 1)
  {
    var grown := levelCalls + seg;
    forall k | 0 <= k < n + 1 ensures LevelRecorded(grown, t, pitchOf, staging, ret, cl, k) {
      if k < n {
        assert LevelRecorded(levelCalls, t, pitchOf, staging, ret, cl, k);
        assert grown[3 * k .. 3 * k + 3] == levelCalls[3 * k .. 3 * k + 3];
      } else {
        assert grown[3 * k .. 3 * k + 3] == seg;
      }
    }
  }

  /** One pass of the level loop: the level's source bytes, then `WriteToStagingAndCopy`. */
  method StageLevel(t: ImageSharpTexture, gd: GraphicsDevice, staging: Texture, ret: Texture, cl: nat, level: nat)
    returns (ghost seg: seq<Call>)
    requires HalvingChain(t) && gd.Valid() && staging.desc == StagingDescription(t) && level < |t.images|
    modifies gd
    ensures gd.nextId == old(gd.nextId)
    ensures gd.calls == old(gd.calls) + seg
    ensures LevelStep(seg, gd.pitchOf, staging.id, ret.id, cl, level,
                      t.images[level].width, t.images[level].height, LevelBytes(t.images[level]))
  {
    var img := t.images[level];
    var w, h := img.width, img.height;
    var rowWidth := w * PixelSize;
    var totalBytes := w * h * PixelSize;
    LevelBytesRow(img, 0);
    var src := LevelSource(img);
    WriteToStagingAndCopy(gd, staging, ret, cl, level, w, h, src, rowWidth, totalBytes);
    seg := gd.calls[|old(gd.calls)|..];
    assert gd.calls == old(gd.calls) + seg;
  }

  /** The level loop of `CreateTextureViaStaging`: `WriteToStagingAndCopy` for levels `0 .. MipLevels-1`. */
  method StageLevels(t: ImageSharpTexture, gd: GraphicsDevice, staging: Texture, ret: Texture, cl: nat)
    returns (ghost levelCalls: seq<Call>)
    requires HalvingChain(t) && gd.Valid() && staging.desc == StagingDescription(t)
    modifies gd
    ensures gd.nextId == old(gd.nextId)
    ensures gd.calls == old(gd.calls) + levelCalls
    ensures StagingLevels(levelCalls, t, gd.pitchOf, staging.id, ret.id, cl, MipLevels(t))
  {
    levelCalls := [];
    for level := 0 to MipLevels(t)
      invariant gd.nextId == old(gd.nextId)
      invariant gd.calls == old(gd.calls) + levelCalls
      invariant StagingLevels(levelCalls, t, gd.pitchOf, staging.id, ret.id, cl, level)
    {
      ghost var seg := StageLevel(t, gd, staging, ret, cl, level);
      StagingLevelsGrow(levelCalls, seg, t, gd.pitchOf, staging.id, ret.id, cl, level);
      levelCalls := levelCalls + seg;
    }
  }

  /**
   * `CreateTextureViaStaging`: create the staging texture, the sampled
   * texture and a command list, begin it, run `WriteToStagingAndCopy` for
   * every level in increasing order, then end and submit the command list
   * and dispose of the staging texture and the command list, in that order.
   * The ghost `levelCalls` names the per-level part of the trace.
   */
  method CreateTextureViaStaging(t: ImageSharpTexture, gd: GraphicsDevice)
    returns (ret: Texture, ghost levelCalls: seq<Call>)
    requires HalvingChain(t) && gd.Valid()
    modifies gd
    ensures ret == Texture(old(gd.nextId) + 1, SampledDescription(t)) && gd.nextId == old(gd.nextId) + 3
    ensures var staging, cl := old(gd.nextId), old(gd.nextId) + 2;
      && gd.calls == old(gd.calls)
           + [Call.CreateTexture(StagingDescription(t), staging), Call.CreateTexture(ret.desc, ret.id),
              Call.CreateCommandList(cl), Call.Begin(cl)]
           + levelCalls
           + [Call.End(cl), Call.SubmitCommands(cl), Call.DisposeTexture(staging), Call.DisposeCommandList(cl)]
      && StagingLevels(levelCalls, t, gd.pitchOf, staging, ret.id, cl, MipLevels(t))
  {
    var staging := gd.CreateTexture(StagingDescription(t));
    ret := gd.CreateTexture(SampledDescription(t));
    var cl := gd.CreateCommandList();
    gd.Begin(cl);
    levelCalls := StageLevels(t, gd, staging, ret, cl);
    gd.End(cl);
    gd.SubmitCommands(cl);
    gd.DisposeTexture(staging);
    gd.DisposeCommandList(cl);
  }

  /**
   * What the staging path leaves in a staging level, whichever copy branch
   * runs: row `y` of the image at bytes `[y*pitch, y*pitch + 4w)`, and every
   * byte outside those rows (the row padding) as the device mapped it.
   */
  lemma StagedLevelContents(seg: seq<Call>, pitchOf: nat -> nat, staging: nat, ret: nat, cl: nat,
                            level: nat, img: Image, y: nat, i: nat)
    requires WellFormed(img)
    requires LevelStep(seg, pitchOf, staging, ret, cl, level, img.width, img.height, LevelBytes(img))
    requires y < img.height
    ensures var pitch, rowWidth := seg[0].rowPitch, PixelSize * img.width;
      && seg[1].Unmap? && |seg[1].written| == |seg[0].initial|
      && y * pitch + rowWidth <= |seg[1].written|
      && seg[1].written[y * pitch .. y * pitch + rowWidth] == PixelBytes(img.rows[y])
      && (i < |seg[0].initial| && OutsideRows(i, pitch, rowWidth, img.height) ==>
            seg[1].written[i] == seg[0].initial[i])
  {
    var pitch, rowWidth := seg[0].rowPitch, PixelSize * img.width;
    var src, initial, h := LevelBytes(img), seg[0].initial, img.height;
    LevelBytesRow(img, y);
    StagedRowWindow(initial, src, pitch, rowWidth, h, h * rowWidth, y);
    if i < |initial| && OutsideRows(i, pitch, rowWidth, h) {
      StagedBytesIsRowCopy(initial, src, pitch, rowWidth, h, h * rowWidth);
      RowCopyOutside(initial, src, pitch, rowWidth, h, i);
    }
  }
}
