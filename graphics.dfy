/**
 * Types shared by the modelled components: bytes and pixels, the graphics
 * enumerations they use, and texture and buffer descriptions.
 */
module Graphics {

  /** One byte of host or device memory. */
  type Byte = bv8

  /** An RGBA pixel with one byte per channel (ImageSharp's `Rgba32`). */
  datatype Rgba32 = Rgba32(r: Byte, g: Byte, b: Byte, a: Byte)

  /** Bytes per `Rgba32` pixel. */
  const PixelSize: nat := 4

  /** The in-memory byte layout of a pixel: R, G, B, A in that order. */
  function PixelToBytes(p: Rgba32): (r: seq<Byte>)
    ensures |r| == PixelSize
  {
    [p.r, p.g, p.b, p.a]
  }

  /** The bytes of a run of pixels laid out one after another. */
  function PixelBytes(px: seq<Rgba32>): (r: seq<Byte>)
    ensures |r| == PixelSize * |px|
  {
    if px == [] then [] else PixelToBytes(px[0]) + PixelBytes(px[1..])
  }

  /** The byte layout of a concatenation is the concatenation of the byte layouts. */
  lemma {:induction false} PixelBytesAppend(a: seq<Rgba32>, b: seq<Rgba32>)
    ensures PixelBytes(a + b) == PixelBytes(a) + PixelBytes(b)
  {
    if a == [] {
      assert a + b == b;
    } else {
      assert (a + b)[1..] == a[1..] + b;
      PixelBytesAppend(a[1..], b);
    }
  }

  /** Byte `4*i + c` of a pixel run is channel `c` of pixel `i`. */
  lemma {:induction false} PixelBytesAt(px: seq<Rgba32>, i: nat, c: nat)
    requires i < |px| && c < PixelSize
    ensures PixelBytes(px)[PixelSize * i + c] == PixelToBytes(px[i])[c]
  {
    if i > 0 {
      PixelBytesAt(px[1..], i - 1, c);
    }
  }

  /** The pixel formats the modelled code names; every other format is `OtherFormat`. */
  datatype PixelFormat =
    | R8_G8_B8_A8_UNorm
    | R8_G8_B8_A8_UNorm_SRgb
    | B8_G8_R8_A8_UNorm
    | B8_G8_R8_A8_UNorm_SRgb
    | R16_UNorm
    | OtherFormat(code: nat)

  /** A single pipeline stage (one flag of Veldrid's `ShaderStages`). */
  datatype ShaderStage =
    | Vertex
    | Geometry
    | TessellationControl
    | TessellationEvaluation
    | Fragment
    | Compute

  /** The stage's enum member name, as C#'s `Enum.ToString` spells it. */
  function StageName(stage: ShaderStage): (name: string)
    ensures |name| >= 4
  {
    match stage
    case Vertex => "Vertex"
    case Geometry => "Geometry"
    case TessellationControl => "TessellationControl"
    case TessellationEvaluation => "TessellationEvaluation"
    case Fragment => "Fragment"
    case Compute => "Compute"
  }

  /** Flags of Veldrid's `TextureUsage`; a usage value is the set of flags it has. */
  datatype TextureUsage = Sampled | Storage | RenderTarget | DepthStencil | Cubemap | Staging | GenerateMipmaps

  /** Flags of Veldrid's `BufferUsage`; a usage value is the set of flags it has. */
  datatype BufferUsage =
    | VertexBuffer
    | IndexBuffer
    | UniformBuffer
    | StructuredBufferReadOnly
    | StructuredBufferReadWrite
    | IndirectBuffer
    | Dynamic
    | StagingBuffer

  datatype TextureType = Texture1D | Texture2D | Texture3D

  datatype MapMode = Read | Write | ReadWrite

  /** Veldrid's `TextureDescription`. */
  datatype TextureDescription = TextureDescription(
    width: nat,
    height: nat,
    depth: nat,
    mipLevels: nat,
    arrayLayers: nat,
    format: PixelFormat,
    usage: set<TextureUsage>,
    textureType: TextureType)

  /** `TextureDescription.Texture2D(width, height, mipLevels, arrayLayers, format, usage)`. */
  function Texture2DDescription(width: nat, height: nat, mipLevels: nat, arrayLayers: nat,
                                format: PixelFormat, usage: set<TextureUsage>): (d: TextureDescription)
    ensures d.textureType == Texture2D && d.depth == 1
    ensures d.width == width && d.height == height && d.mipLevels == mipLevels
    ensures d.arrayLayers == arrayLayers && d.format == format && d.usage == usage
  {
    TextureDescription(width, height, 1, mipLevels, arrayLayers, format, usage, Texture2D)
  }

  /** Veldrid's `BufferDescription`. */
  datatype BufferDescription = BufferDescription(sizeInBytes: nat, usage: set<BufferUsage>)

  /**
   * `y * stride` built up one stride at a time: where row `y` starts when
   * rows are `stride` apart. Proofs about row layouts use it so that they
   * stay linear; `OffsetIsProduct` ties it back to the product.
   */
  function Offset(y: nat, stride: nat): nat {
    if y == 0 then 0 else Offset(y - 1, stride) + stride
  }

  lemma {:induction false} OffsetIsProduct(y: nat, stride: nat)
    ensures Offset(y, stride) == y * stride
  {
    if y > 0 {
      OffsetIsProduct(y - 1, stride);
      assert y * stride == (y - 1) * stride + stride;
    }
  }

  /** A later row starts at least one stride after an earlier one. */
  lemma {:induction false} OffsetMonotone(y: nat, y': nat, stride: nat)
    requires y < y'
    ensures Offset(y, stride) + stride <= Offset(y', stride)
  {
    if y + 1 < y' {
      OffsetMonotone(y, y' - 1, stride);
    }
  }

  lemma MulMonotone(a: nat, b: nat, c: nat)
    requires a <= b
    ensures a * c <= b * c
  {
    assert b * c == a * c + (b - a) * c;
  }

  lemma RowEnd(rowWidth: nat, y: nat)
    ensures y * rowWidth + rowWidth == (y + 1) * rowWidth
  {
  }

  /** `d >> k`: `d` halved `k` times, rounding down. */
  function Halved(d: nat, k: nat): (r: nat)
    ensures r <= d
  {
    if k == 0 then d else Halved(d / 2, k - 1)
  }

  /** The extent of mip level `level` of a dimension `d`: halved per level, never below 1. */
  function MipExtent(d: nat, level: nat): (e: nat)
    ensures e >= 1
    ensures d >= 1 ==> e <= d
    ensures level == 0 && d >= 1 ==> e == d
  {
    var q := Halved(d, level);
    if q == 0 then 1 else q
  }
}
