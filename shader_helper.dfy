/**
 * `ShaderHelper` of the NeoDemo sample: locating and checking the SPIR-V
 * bytecode of a vertex/fragment shader set, deriving the specialization
 * constants from the device, and creating the shader pair.
 *
 * The file store is a map from path to contents, and `AssetHelper.GetPath`
 * (which turns a relative asset path into a full one) is the parameter
 * `resolve`.
 */
module ShaderHelper {
  import opened Wrappers
  import opened Graphics
  import opened Paths

  /** `GraphicsBackend`, an enum over `byte` whose only named member is `Vulkan` (0). */
  newtype GraphicsBackend = x: int | 0 <= x < 256
  const Vulkan: GraphicsBackend := 0

  /** The exceptions `LoadBytecode` and the extension lookups throw. */
  datatype ShaderError =
    | FileNotFound(path: string)
      /** "not valid SPIR-V", with the offending path and the value read as the magic number. */
    | InvalidSpirv(path: string, magic: bv32)
    | InvalidBackend(backend: GraphicsBackend)

  /** The SPIR-V magic number (SPIR-V Specification, section 3.1 "Magic Number"). */
  const SpirvMagic: bv32 := 0x0723_0203

  /** `GetBytecodeExtension`: the compiled-shader suffix for a backend. */
  function GetBytecodeExtension(backend: GraphicsBackend): (r: Result<string, ShaderError>)
    ensures backend == Vulkan <==> r == Ok(".spv")
    ensures backend != Vulkan <==> r == Err(InvalidBackend(backend))
  {
    if backend == Vulkan then Ok(".spv") else Err(InvalidBackend(backend))
  }

  /** `GetSourceExtension`: the shader-source suffix for a backend. */
  function GetSourceExtension(backend: GraphicsBackend): (r: Result<string, ShaderError>)
    ensures backend == Vulkan <==> r == Ok(".450.glsl")
    ensures backend != Vulkan <==> r == Err(InvalidBackend(backend))
  {
    if backend == Vulkan then Ok(".450.glsl") else Err(InvalidBackend(backend))
  }

  /** The stage part of a shader file name: every stage but Vertex is taken to be a fragment shader. */
  function StageExtension(stage: ShaderStage): (ext: string)
    ensures ext == "vert" <==> stage == Vertex
    ensures ext == "frag" <==> stage != Vertex
  {
    if stage == Vertex then "vert" else "frag"
  }

  /** `setName + "." + stageExt`. */
  function BaseName(setName: string, stage: ShaderStage): (name: string)
    ensures |name| == |setName| + 5
    ensures name[..|setName|] == setName && name[|setName|] == '.'
    ensures name[|setName| + 1..] == StageExtension(stage)
  {
    setName + "." + StageExtension(stage)
  }

  /**
   * `BitConverter.ToUInt32(bytes, 0)` on a little-endian host: byte 0 is the
   * least significant. A big-endian host would read the bytes the other way
   * round; the model assumes the little-endian order.
   */
  function ReadUInt32LE(bytes: seq<Byte>): (v: bv32)
    requires |bytes| >= 4
    ensures v & 0xFF == bytes[0] as bv32 && (v >> 8) & 0xFF == bytes[1] as bv32
    ensures (v >> 16) & 0xFF == bytes[2] as bv32 && v >> 24 == bytes[3] as bv32
  {
    (bytes[3] as bv32 << 24) | (bytes[2] as bv32 << 16) | (bytes[1] as bv32 << 8) | (bytes[0] as bv32)
  }

  /** The four bytes a little-endian `uint` is stored as, least significant first. */
  function UInt32ToBytesLE(v: bv32): (bytes: seq<Byte>)
    ensures |bytes| == 4
  {
    [(v & 0xFF) as Byte, ((v >> 8) & 0xFF) as Byte, ((v >> 16) & 0xFF) as Byte, ((v >> 24) & 0xFF) as Byte]
  }

  /** Reading back the stored bytes gives the value again. */
  lemma ReadWriteUInt32(v: bv32)
    ensures ReadUInt32LE(UInt32ToBytesLE(v)) == v
  {
    var b := UInt32ToBytesLE(v);
    assert b[0] as bv32 == v & 0xFF;
    assert b[1] as bv32 == (v >> 8) & 0xFF;
    assert b[2] as bv32 == (v >> 16) & 0xFF;
    assert b[3] as bv32 == (v >> 24) & 0xFF;
  }

  /** A file passes the magic check exactly when it starts with 03 02 23 07. */
  lemma MagicBytes(bytes: seq<Byte>)
    requires |bytes| >= 4
    ensures ReadUInt32LE(bytes) == SpirvMagic <==> bytes[..4] == [0x03, 0x02, 0x23, 0x07]
  {
    if bytes[..4] == [0x03, 0x02, 0x23, 0x07] {
      assert bytes[0] == 0x03 && bytes[1] == 0x02 && bytes[2] == 0x23 && bytes[3] == 0x07;
    }
    if ReadUInt32LE(bytes) == SpirvMagic {
      ReadWriteBytes(bytes[..4]);
      assert UInt32ToBytesLE(SpirvMagic) == [0x03, 0x02, 0x23, 0x07];
    }
  }

  /** Storing the value read from four bytes gives those bytes back. */
  lemma ReadWriteBytes(bytes: seq<Byte>)
    requires |bytes| == 4
    ensures UInt32ToBytesLE(ReadUInt32LE(bytes)) == bytes
  {
    var v := ReadUInt32LE(bytes);
    var b := UInt32ToBytesLE(v);
    assert b[0] == bytes[0] && b[1] == bytes[1] && b[2] == bytes[2] && b[3] == bytes[3];
  }

  /** The header check: shorter than four bytes is not checked; otherwise the magic number must match. */
  predicate SpirvHeaderOk(bytes: seq<Byte>) {
    |bytes| < 4 || ReadUInt32LE(bytes) == SpirvMagic
  }

  /** The full path of a set's bytecode file for a backend with bytecode extension `ext`. */
  function BytecodePath(setName: string, stage: ShaderStage, ext: string, resolve: string -> string): string {
    resolve(Combine("Shaders", BaseName(setName, stage) + ext))
  }

  /** The full path of a set's generated source file for a backend with source extension `ext`. */
  function SourcePath(setName: string, stage: ShaderStage, ext: string, resolve: string -> string): string {
    resolve(Combine("Shaders.Generated", BaseName(setName, stage) + ext))
  }

  /** `File.ReadAllBytes`: the contents, or FileNotFound for a missing file. */
  function ReadAllBytes(files: map<string, seq<Byte>>, path: string): (r: Result<seq<Byte>, ShaderError>)
    ensures path in files <==> r.Ok?
    ensures r.Ok? ==> r.value == files[path]
    ensures r.Err? ==> r.error == FileNotFound(path)
  {
    if path in files then Ok(files[path]) else Err(FileNotFound(path))
  }

  /**
   * `LoadBytecode`: for Vulkan, read `Shaders/<set>.<stage>.spv` and check its
   * header; for any other backend, read the generated source, whose extension
   * lookup fails first.
   */
  function LoadBytecode(backend: GraphicsBackend, setName: string, stage: ShaderStage,
                        files: map<string, seq<Byte>>, resolve: string -> string): (r: Result<seq<Byte>, ShaderError>)
    ensures backend != Vulkan ==> r == Err(InvalidBackend(backend))
    ensures backend == Vulkan ==>
      var path := BytecodePath(setName, stage, ".spv", resolve);
      && (path !in files <==> r == Err(FileNotFound(path)))
      && (path in files && !SpirvHeaderOk(files[path]) ==>
            r == Err(InvalidSpirv(path, ReadUInt32LE(files[path]))))
      && (r.Err? && r.error.InvalidSpirv? ==> path in files && !SpirvHeaderOk(files[path]))
      && (r.Ok? <==> path in files && SpirvHeaderOk(files[path]))
      && (r.Ok? ==> r.value == files[path])
  {
    if backend == Vulkan then
      match GetBytecodeExtension(backend)
      case Err(e) => Err(e)
      case Ok(bytecodeExtension) =>
        var bytecodePath := BytecodePath(setName, stage, bytecodeExtension, resolve);
        if bytecodePath in files then
          var bytes := files[bytecodePath];
          if |bytes| >= 4 && ReadUInt32LE(bytes) != SpirvMagic then
            Err(InvalidSpirv(bytecodePath, ReadUInt32LE(bytes)))
          else
            Ok(bytes)
        else
          Err(FileNotFound(bytecodePath))
    else
      match GetSourceExtension(backend)
      case Err(e) => Err(e)
      case Ok(extension) => ReadAllBytes(files, SourcePath(setName, stage, extension, resolve))
  }

  /** A relative name goes under the `Shaders` directory with one separator. */
  lemma ShadersPath(setName: string, stage: ShaderStage, ext: string)
    requires !IsRooted(setName)
    ensures Combine("Shaders", BaseName(setName, stage) + ext) == "Shaders/" + setName + "." + StageExtension(stage) + ext
  {
    var name := BaseName(setName, stage) + ext;
    assert !IsRooted(name) by {
      assert name[0] == if setName == [] then '.' else setName[0];
    }
    CombineJoins("Shaders", name);
    assert "Shaders" + [Separator] == "Shaders/";
  }

  /** A file shorter than four bytes is returned without a header check. */
  lemma ShortFilePasses(setName: string, stage: ShaderStage, files: map<string, seq<Byte>>, resolve: string -> string)
    requires BytecodePath(setName, stage, ".spv", resolve) in files
    requires |files[BytecodePath(setName, stage, ".spv", resolve)]| < 4
    ensures LoadBytecode(Vulkan, setName, stage, files, resolve) == Ok(files[BytecodePath(setName, stage, ".spv", resolve)])
  {
  }

  // ---------------------------------------------------------------------
  // Specialization constants
  // ---------------------------------------------------------------------

  /** A boolean specialization constant. */
  datatype SpecializationConstant = SpecializationConstant(id: nat, value: bool)

  /** What `GetSpecializations` reads from the device: two flags and its main swapchain's colour attachment formats. */
  datatype DeviceFacts = DeviceFacts(isClipSpaceYInverted: bool, isDepthRangeZeroToOne: bool,
                                     mainSwapchain: Option<seq<PixelFormat>>)

  /** `GetSpecializations` dereferences the main swapchain and its first colour attachment. */
  datatype SpecializationError = NoMainSwapchain | NoColorAttachment

  predicate IsSrgbFormat(f: PixelFormat) {
    f == B8_G8_R8_A8_UNorm_SRgb || f == R8_G8_B8_A8_UNorm_SRgb
  }

  /** The four constants, given the swapchain's first colour format. */
  function SpecializationsFor(gd: DeviceFacts, swapchainFormat: PixelFormat): (r: seq<SpecializationConstant>)
    ensures |r| == 4 && forall i :: 0 <= i < |r| ==> r[i].id == 100 + i
    ensures r[3].value <==> swapchainFormat == B8_G8_R8_A8_UNorm_SRgb || swapchainFormat == R8_G8_B8_A8_UNorm_SRgb
  {
    [SpecializationConstant(100, gd.isClipSpaceYInverted),
     SpecializationConstant(101, false),
     SpecializationConstant(102, gd.isDepthRangeZeroToOne),
     SpecializationConstant(103, IsSrgbFormat(swapchainFormat))]
  }

  /** `GetSpecializations`: the first three constants, then the swapchain one appended. */
  method GetSpecializations(gd: DeviceFacts) returns (r: Result<seq<SpecializationConstant>, SpecializationError>)
    ensures gd.mainSwapchain.None? <==> r == Err(NoMainSwapchain)
    ensures gd.mainSwapchain.Some? && gd.mainSwapchain.value == [] <==> r == Err(NoColorAttachment)
    ensures r.Ok? ==> gd.mainSwapchain.Some? && |gd.mainSwapchain.value| > 0
                      && r.value == SpecializationsFor(gd, gd.mainSwapchain.value[0])
  {
    var glOrGles := false;
    var specializations := [SpecializationConstant(100, gd.isClipSpaceYInverted),
                            SpecializationConstant(101, glOrGles),
                            SpecializationConstant(102, gd.isDepthRangeZeroToOne)];
    if gd.mainSwapchain.None? {
      return Err(NoMainSwapchain);
    }
    var colorAttachments := gd.mainSwapchain.value;
    if |colorAttachments| == 0 {
      return Err(NoColorAttachment);
    }
    var swapchainFormat := colorAttachments[0];
    var swapchainIsSrgb := swapchainFormat == B8_G8_R8_A8_UNorm_SRgb || swapchainFormat == R8_G8_B8_A8_UNorm_SRgb;
    specializations := specializations + [SpecializationConstant(103, swapchainIsSrgb)];
    r := Ok(specializations);
  }

  /**
   * Exactly four constants with ids 100, 101, 102, 103 in that order: the
   * clip-space flag, `false`, the depth-range flag, and whether the
   * swapchain format is one of the two sRGB formats.
   */
  lemma SpecializationsShape(gd: DeviceFacts, f: PixelFormat)
    ensures var s := SpecializationsFor(gd, f);
      && |s| == 4
      && (forall i :: 0 <= i < 4 ==> s[i].id == 100 + i)
      && s[0].value == gd.isClipSpaceYInverted && !s[1].value && s[2].value == gd.isDepthRangeZeroToOne
      && (s[3].value <==> f in {B8_G8_R8_A8_UNorm_SRgb, R8_G8_B8_A8_UNorm_SRgb})
  {
  }

  /** Changing only the swapchain format changes at most constant 103. */
  lemma FormatOnlyAffects103(gd: DeviceFacts, f: PixelFormat, f': PixelFormat)
    ensures forall i :: 0 <= i < 3 ==> SpecializationsFor(gd, f)[i] == SpecializationsFor(gd, f')[i]
    ensures SpecializationsFor(gd, f)[3].id == SpecializationsFor(gd, f')[3].id == 103
    ensures SpecializationsFor(gd, f) == SpecializationsFor(gd, f') <==> (IsSrgbFormat(f) <==> IsSrgbFormat(f'))
  {
  }

  // ---------------------------------------------------------------------
  // The shader pair
  // ---------------------------------------------------------------------

  /** `ShaderDescription(stage, bytes, entryPoint, debug)`. */
  datatype ShaderDescription = ShaderDescription(stage: ShaderStage, shaderBytes: seq<Byte>, entryPoint: string, debug: bool)

  /** A created shader; its `Name` is set after creation. */
  class Shader {
    const description: ShaderDescription
    var name: string

    constructor (description: ShaderDescription)
      ensures this.description == description && name == ""
    {
      this.description := description;
      name := "";
    }
  }

  /** The part of `ResourceFactory` that creates shaders, recording every description it is given. */
  class ShaderFactory {
    var created: seq<ShaderDescription>

    constructor ()
      ensures created == []
    {
      created := [];
    }

    method CreateShader(description: ShaderDescription) returns (s: Shader)
      modifies this
      ensures fresh(s) && s.description == description && s.name == ""
      ensures created == old(created) + [description]
    {
      s := new Shader(description);
      created := created + [description];
    }
  }

  /**
   * `LoadSPIRV`: load both bytecodes for Vulkan, then create the vertex and
   * fragment shaders with entry point `main` and name them after the set.
   * A failed load creates no shader. `debug` is the build-time `DEBUG` flag.
   */
  method LoadSPIRV(factory: ShaderFactory, setName: string, files: map<string, seq<Byte>>,
                   resolve: string -> string, debug: bool)
    returns (r: Result<(Shader, Shader), ShaderError>)
    modifies factory
    ensures var vsBytes := LoadBytecode(Vulkan, setName, Vertex, files, resolve);
      var fsBytes := LoadBytecode(Vulkan, setName, Fragment, files, resolve);
      && (r.Ok? <==> vsBytes.Ok? && fsBytes.Ok?)
      && (vsBytes.Err? ==> r == Err(vsBytes.error))
      && (vsBytes.Ok? && fsBytes.Err? ==> r == Err(fsBytes.error))
      && (r.Err? ==> factory.created == old(factory.created))
      && (r.Ok? ==>
            var vsDesc := ShaderDescription(Vertex, vsBytes.value, "main", debug);
            var fsDesc := ShaderDescription(Fragment, fsBytes.value, "main", debug);
            && factory.created == old(factory.created) + [vsDesc, fsDesc]
            && fresh(r.value.0) && fresh(r.value.1) && r.value.0 != r.value.1
            && r.value.0.description == vsDesc && r.value.1.description == fsDesc
            && r.value.0.name == setName + "-Vertex" && r.value.1.name == setName + "-Fragment")
  {
    var vsBytes := LoadBytecode(Vulkan, setName, Vertex, files, resolve);
    if vsBytes.Err? {
      return Err(vsBytes.error);
    }
    var fsBytes := LoadBytecode(Vulkan, setName, Fragment, files, resolve);
    if fsBytes.Err? {
      return Err(fsBytes.error);
    }
    var vs := factory.CreateShader(ShaderDescription(Vertex, vsBytes.value, "main", debug));
    var fs := factory.CreateShader(ShaderDescription(Fragment, fsBytes.value, "main", debug));
    vs.name := setName + "-Vertex";
    fs.name := setName + "-Fragment";
    r := Ok((vs, fs));
  }
}
