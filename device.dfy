/**
 * The graphics device, its resource factory and its command lists, seen
 * only through the calls made on them. The object keeps the trace of calls
 * in order, so the upload paths can be specified by the trace they produce.
 */
module Device {
  import opened Graphics

  /** A texture created by the device: a handle and the description it was created from. */
  datatype Texture = Texture(id: nat, desc: TextureDescription)

  /**
   * A mapped subresource: the host-visible bytes and the device-reported
   * distance in bytes between the starts of consecutive rows.
   */
  datatype MappedResource = MappedResource(data: array<Byte>, rowPitch: nat)

  /** One call on the device, its factory or a command list. */
  datatype Call =
    | CreateTexture(desc: TextureDescription, texture: nat)
    | CreateCommandList(commandList: nat)
      /** `UpdateTexture`; `data` is the `sizeInBytes` bytes read from the source pointer. */
    | UpdateTexture(texture: nat, data: seq<Byte>, sizeInBytes: nat,
                    x: nat, y: nat, z: nat, width: nat, height: nat, depth: nat,
                    mipLevel: nat, arrayLayer: nat)
      /** `Map`, with the pitch it reported and the bytes the region held when it was handed out. */
    | Map(texture: nat, mode: MapMode, subresource: nat, rowPitch: nat, initial: seq<Byte>)
      /** `Unmap`, with the bytes the region holds when it is given back. */
    | Unmap(texture: nat, subresource: nat, written: seq<Byte>)
    | Begin(commandList: nat)
    | CopyTexture(commandList: nat,
                  source: nat, srcX: nat, srcY: nat, srcZ: nat, srcMipLevel: nat, srcBaseArrayLayer: nat,
                  destination: nat, dstX: nat, dstY: nat, dstZ: nat, dstMipLevel: nat, dstBaseArrayLayer: nat,
                  width: nat, height: nat, depth: nat, layerCount: nat)
    | End(commandList: nat)
    | SubmitCommands(commandList: nat)
    | DisposeTexture(texture: nat)
    | DisposeCommandList(commandList: nat)

  /**
   * A recording device. `pitchOf` is the row pitch the device reports when a
   * level whose packed rows are `n` bytes wide is mapped; it never is less
   * than `n`.
   */
  class GraphicsDevice {
    var calls: seq<Call>
    var nextId: nat
    const pitchOf: nat -> nat

    ghost predicate Valid() {
      forall n :: pitchOf(n) >= n
    }

    constructor (pitchOf: nat -> nat)
      requires forall n :: pitchOf(n) >= n
      ensures Valid() && this.pitchOf == pitchOf
      ensures calls == [] && nextId == 0
    {
      this.pitchOf := pitchOf;
      calls := [];
      nextId := 0;
    }

    method CreateTexture(desc: TextureDescription) returns (t: Texture)
      modifies this
      ensures t == Texture(old(nextId), desc) && nextId == old(nextId) + 1
      ensures calls == old(calls) + [Call.CreateTexture(desc, t.id)]
    {
      t := Texture(nextId, desc);
      nextId := nextId + 1;
      calls := calls + [Call.CreateTexture(desc, t.id)];
    }

    method CreateCommandList() returns (cl: nat)
      modifies this
      ensures cl == old(nextId) && nextId == old(nextId) + 1
      ensures calls == old(calls) + [Call.CreateCommandList(cl)]
    {
      cl := nextId;
      nextId := nextId + 1;
      calls := calls + [Call.CreateCommandList(cl)];
    }

    /** The device reads `sizeInBytes` bytes from the source, so they must be there. */
    method UpdateTexture(t: Texture, source: seq<Byte>, sizeInBytes: nat,
                         x: nat, y: nat, z: nat, width: nat, height: nat, depth: nat,
                         mipLevel: nat, arrayLayer: nat)
      requires sizeInBytes <= |source|
      modifies this
      ensures nextId == old(nextId)
      ensures calls == old(calls) + [Call.UpdateTexture(t.id, source[..sizeInBytes], sizeInBytes,
                                                   x, y, z, width, height, depth, mipLevel, arrayLayer)]
    {
      calls := calls + [Call.UpdateTexture(t.id, source[..sizeInBytes], sizeInBytes,
                                      x, y, z, width, height, depth, mipLevel, arrayLayer)];
    }

    /**
     * Maps mip level `level`: a fresh region of `rowPitch * levelHeight`
     * bytes whose pitch the device chooses for the level's width.
     */
    method Map(t: Texture, mode: MapMode, level: nat) returns (m: MappedResource)
      modifies this
      ensures fresh(m.data) && nextId == old(nextId)
      ensures m.rowPitch == pitchOf(PixelSize * MipExtent(t.desc.width, level))
      ensures m.data.Length == m.rowPitch * MipExtent(t.desc.height, level)
      ensures calls == old(calls) + [Call.Map(t.id, mode, level, m.rowPitch, m.data[..])]
    {
      var pitch := pitchOf(PixelSize * MipExtent(t.desc.width, level));
      var data := new Byte[pitch * MipExtent(t.desc.height, level)];
      m := MappedResource(data, pitch);
      calls := calls + [Call.Map(t.id, mode, level, pitch, data[..])];
    }

    method Unmap(t: Texture, level: nat, m: MappedResource)
      modifies this
      ensures nextId == old(nextId)
      ensures calls == old(calls) + [Call.Unmap(t.id, level, m.data[..])]
    {
      calls := calls + [Call.Unmap(t.id, level, m.data[..])];
    }

    method Begin(cl: nat)
      modifies this
      ensures nextId == old(nextId) && calls == old(calls) + [Call.Begin(cl)]
    {
      calls := calls + [Call.Begin(cl)];
    }

    method CopyTexture(cl: nat,
                       source: Texture, srcX: nat, srcY: nat, srcZ: nat, srcMipLevel: nat, srcBaseArrayLayer: nat,
                       destination: Texture, dstX: nat, dstY: nat, dstZ: nat, dstMipLevel: nat, dstBaseArrayLayer: nat,
                       width: nat, height: nat, depth: nat, layerCount: nat)
      modifies this
      ensures nextId == old(nextId)
      ensures calls == old(calls) + [Call.CopyTexture(cl, source.id, srcX, srcY, srcZ, srcMipLevel, srcBaseArrayLayer,
                                                 destination.id, dstX, dstY, dstZ, dstMipLevel, dstBaseArrayLayer,
                                                 width, height, depth, layerCount)]
    {
      calls := calls + [Call.CopyTexture(cl, source.id, srcX, srcY, srcZ, srcMipLevel, srcBaseArrayLayer,
                                    destination.id, dstX, dstY, dstZ, dstMipLevel, dstBaseArrayLayer,
                                    width, height, depth, layerCount)];
    }

    method End(cl: nat)
      modifies this
      ensures nextId == old(nextId) && calls == old(calls) + [Call.End(cl)]
    {
      calls := calls + [Call.End(cl)];
    }

    method SubmitCommands(cl: nat)
      modifies this
      ensures nextId == old(nextId) && calls == old(calls) + [Call.SubmitCommands(cl)]
    {
      calls := calls + [Call.SubmitCommands(cl)];
    }

    method DisposeTexture(t: Texture)
      modifies this
      ensures nextId == old(nextId) && calls == old(calls) + [Call.DisposeTexture(t.id)]
    {
      calls := calls + [Call.DisposeTexture(t.id)];
    }

    method DisposeCommandList(cl: nat)
      modifies this
      ensures nextId == old(nextId) && calls == old(calls) + [Call.DisposeCommandList(cl)]
    {
      calls := calls + [Call.DisposeCommandList(cl)];
    }
  }
}
