/**
 * Two helpers of the graphics-device test base: the length scan of a
 * zero-terminated byte string, and the description `GetReadback` derives
 * for a texture or buffer that has to be copied before it can be mapped.
 */
module TestUtils {
  import opened Graphics

  /**
   * `GetString`: count the bytes before the first zero and take that
   * prefix (the UTF-8 decoding of the prefix is left out). The caller
   * promises a terminating zero.
   */
  method GetString(memory: seq<Byte>) returns (characters: nat, s: seq<Byte>)
    requires exists z :: 0 <= z < |memory| && memory[z] == 0
    ensures characters < |memory| && memory[characters] == 0
    ensures forall i :: 0 <= i < characters ==> memory[i] != 0
    ensures s == memory[..characters]
  {
    characters := 0;
    while memory[characters] != 0
      invariant characters < |memory|
      invariant forall i :: 0 <= i < characters ==> memory[i] != 0
      decreases |memory| - characters
    {
      characters := characters + 1;
    }
    s := memory[..characters];
  }

  /** The first zero byte is unique: the scan's count is the one index with that property. */
  lemma FirstZeroUnique(memory: seq<Byte>, a: nat, b: nat)
    requires a < |memory| && memory[a] == 0 && forall i :: 0 <= i < a ==> memory[i] != 0
    requires b < |memory| && memory[b] == 0 && forall i :: 0 <= i < b ==> memory[i] != 0
    ensures a == b
  {
  }

  const UInt32Modulus: nat := 0x1_0000_0000

  /** `layers *= 6` on a `uint`: six layers per cube, wrapping at 2^32. */
  function ReadbackLayers(desc: TextureDescription): (layers: nat)
    requires desc.arrayLayers < UInt32Modulus
    ensures layers < UInt32Modulus
    ensures Cubemap !in desc.usage ==> layers == desc.arrayLayers
    ensures Cubemap in desc.usage && desc.arrayLayers * 6 < UInt32Modulus ==> layers == 6 * desc.arrayLayers
  {
    var layers := desc.arrayLayers;
    if Cubemap in desc.usage then (layers * 6) % UInt32Modulus else layers
  }

  /** What `GetReadback(Texture)` hands back: the texture itself, or a new staging texture to copy it into. */
  datatype TextureReadback = TextureAsIs | TextureCopy(desc: TextureDescription)

  function GetTextureReadback(texture: TextureDescription): (r: TextureReadback)
    requires texture.arrayLayers < UInt32Modulus
    ensures Staging in texture.usage <==> r.TextureAsIs?
    ensures r.TextureCopy? ==>
      && r.desc.usage == {Staging}
      && r.desc.width == texture.width && r.desc.height == texture.height && r.desc.depth == texture.depth
      && r.desc.mipLevels == texture.mipLevels && r.desc.format == texture.format
      && r.desc.textureType == texture.textureType
      && r.desc.arrayLayers == ReadbackLayers(texture)
  {
    if Staging in texture.usage then TextureAsIs
    else
      TextureCopy(TextureDescription(texture.width, texture.height, texture.depth, texture.mipLevels,
                                     ReadbackLayers(texture), texture.format, {Staging}, texture.textureType))
  }

  /** A readback texture needs no further readback, and a cube map's readback has one layer per face. */
  lemma TextureReadbackIsFinal(texture: TextureDescription)
    requires texture.arrayLayers < UInt32Modulus && Staging !in texture.usage
    ensures var r := GetTextureReadback(texture);
      && r.desc.arrayLayers < UInt32Modulus
      && GetTextureReadback(r.desc) == TextureAsIs
      && (Cubemap in texture.usage && texture.arrayLayers * 6 < UInt32Modulus ==> r.desc.arrayLayers == 6 * texture.arrayLayers)
      && (Cubemap !in texture.usage ==> r.desc.arrayLayers == texture.arrayLayers)
  {
  }

  /** What `GetReadback(DeviceBuffer)` hands back: the buffer itself, or a staging buffer and the range copied into it. */
  datatype BufferReadback =
    | BufferAsIs
    | BufferCopy(desc: BufferDescription, sourceOffset: nat, destinationOffset: nat, sizeInBytes: nat)

  function GetBufferReadback(buffer: BufferDescription): (r: BufferReadback)
    ensures StagingBuffer in buffer.usage <==> r.BufferAsIs?
    ensures r.BufferCopy? ==>
      && r.desc == BufferDescription(buffer.sizeInBytes, {StagingBuffer})
      && r.sourceOffset == 0 && r.destinationOffset == 0
      && r.sizeInBytes == buffer.sizeInBytes == r.desc.sizeInBytes
  {
    if StagingBuffer in buffer.usage then BufferAsIs
    else BufferCopy(BufferDescription(buffer.sizeInBytes, {StagingBuffer}), 0, 0, buffer.sizeInBytes)
  }

  /** The staging buffer is the whole source: the copied range `[0, size)` fills it exactly. */
  lemma BufferReadbackIsFinal(buffer: BufferDescription)
    requires StagingBuffer !in buffer.usage
    ensures var r := GetBufferReadback(buffer);
      && GetBufferReadback(r.desc) == BufferAsIs
      && r.sourceOffset + r.sizeInBytes == buffer.sizeInBytes
      && r.destinationOffset + r.sizeInBytes == r.desc.sizeInBytes
  {
  }
}
