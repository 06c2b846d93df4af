# A verified model of the Veldrid fork's texture upload, shader loading, event registry and service locator

This project models, in Dafny, the parts of the Veldrid fork that have logic worth stating as contracts.

- **`ImageSharpTexture`.** A mip chain of decoded RGBA32 images is built with a pixel format picked from an `srgb` flag. It reaches the GPU in one of two ways:
  - one `UpdateTexture` call per level;
  - a staging texture that is mapped, filled row by row at the device-reported row pitch, unmapped and copied by a command list.

  Both paths first gather the rows of an image whose pixels are not one contiguous block.
- **`ShaderHelper` (NeoDemo).** Locates `Shaders/<set>.<vert|frag>.spv`. It checks the SPIR-V magic number (SPIR-V Specification, section 3.1 "Magic Number"), builds the specialization constants 100 to 103 from the device, and creates the named vertex/fragment pair.
- **`EventSystem`.** A registry from event type to an ordered handler list, with no duplicates, and a disposed flag.
- **`Ioc`.** A service locator whose provider can be set exactly once.
- **Two test helpers.** `TestShaders.GetPath`, and in `TestUtils`, the zero-terminated length scan of `GetString` and the readback descriptions derived by `GetReadback`.

Modules follow the program:

| module | models |
|---|---|
| `Graphics` | shared value types: `Rgba32` and its bytes, pixel formats, stages, usages, texture and buffer descriptions, mip extents |
| `Paths` | `Path.Combine` with the Unix separator |
| `MipChain` | the `ImageSharpTexture` record, the row-major pixel layout, the bytes of a level |
| `StagingCopy` | `WriteToStagingAndCopy`'s bulk and row-by-row copies into the mapped region |
| `Device` | the device, factory and command list, as an object that records the calls made on it |
| `TextureUpload` | the row gather, the update path and the staging path |
| `ShaderHelper` | `ShaderHelper` |
| `EventSystem` | `EventSystem` |
| `Ioc` | `Ioc` |
| `TestShaders` | `TestShaders.GetPath` |
| `TestUtils` | `GetString` and both `GetReadback` overloads |

Object state that the source updates in place is a class:

- the event registry;
- the locator;
- the shader factory and the shaders it names;
- the recording device.

Pixel buffers that the source writes are arrays:

- the pooled gather buffer;
- the mapped staging region.

The properties and selections of `ImageSharpTexture` are functions on a datatype value, because every field is get-only. The `Width`, `Height`, `MipLevels` and `PixelSizeInBytes` getters are selections on that value. The constructors that leave out `srgb` or `mipmap` are `MipChain.FromImageLinear` with `mipmap` defaulting to true.

Row offsets such as `y * rowPitch` are built by `Graphics.Offset`, one stride at a time. This keeps the proofs linear, and `Graphics.OffsetIsProduct` ties `Offset` back to the product. Most contracts other modules see use the products the source writes. The two exceptions are `StagingCopy.RowsFit` (the conclusion of `TextureUpload.MappedRegionFits`) and `StagingCopy.OutsideRows` (the padding clause of `TextureUpload.StagedLevelContents`), which use `Offset`; `StagingCopy.RowsFitMeans` and `Graphics.OffsetIsProduct` connect them to the products.

Some functions are specification helpers with no contract of their own. They are described by the rows of the members whose contracts use them:
- `ShaderHelper.BytecodePath` and `ShaderHelper.SourcePath`, the looked-up paths (`LoadBytecode`, `ShadersPath`);
- `TextureUpload.SampledDescription` and `TextureUpload.StagingDescription`, which are built with `Graphics.Texture2DDescription` (`CreateTextureViaUpdate`, `CreateTextureViaStaging`);
- `Paths.IsRooted`, the `Path.IsPathRooted` test (`Paths.Combine`).

## Model

| member | source | states |
|---|---|---|
| MipChain.FromImage | src/Veldrid.ImageSharp/ImageSharpTexture.cs:54-65 | the format is `R8_G8_B8_A8_UNorm_SRgb` exactly when `srgb` holds and `R8_G8_B8_A8_UNorm` exactly when it does not; without `mipmap` the chain is the one input image, with it the chain is the generator's output |
| MipChain.FromImageLinear | src/Veldrid.ImageSharp/ImageSharpTexture.cs:47-53 | the constructors without `srgb` build a linear `R8_G8_B8_A8_UNorm` chain: the input image alone without `mipmap`, the generated chain with it |
| MipChain.DefaultConstructor | src/Veldrid.ImageSharp/ImageSharpTexture.cs:53 | with the default `mipmap = true` and the implied `srgb = false`, the texture is the generated chain in `R8_G8_B8_A8_UNorm` |
| MipChain.Width | src/Veldrid.ImageSharp/ImageSharpTexture.cs:25 | the width of level 0, at least 1 for a well-formed chain |
| MipChain.Height | src/Veldrid.ImageSharp/ImageSharpTexture.cs:30 | the height of level 0, at least 1 for a well-formed chain |
| MipChain.MipLevels | src/Veldrid.ImageSharp/ImageSharpTexture.cs:45 | the number of levels, at least 1 for a well-formed chain |
| MipChain.PixelSizeInBytes | src/Veldrid.ImageSharp/ImageSharpTexture.cs:40 | the byte size of every RGBA32 pixel |
| MipChain.SingleLevelChain | src/Veldrid.ImageSharp/ImageSharpTexture.cs:25-45 | without mip generation `MipLevels` is 1 and `Width`/`Height` are the input image's, the chain being exactly `[image]` |
| MipChain.PixelsSize | src/Veldrid.ImageSharp/ImageSharpTexture.cs:101-109 | rows of `w` pixels lay out `Offset(h, w)` pixels in row-major order |
| MipChain.PixelsLength | src/Veldrid.ImageSharp/ImageSharpTexture.cs:101 | rows of `w` pixels each lay out `h*w` pixels: exactly the `w*h` slots the gather reads |
| MipChain.PixelsWindow | src/Veldrid.ImageSharp/ImageSharpTexture.cs:105-108 | row `y` sits at pixels `[Offset(y,w), Offset(y,w)+w)` of the layout |
| MipChain.PixelsRow | src/Veldrid.ImageSharp/ImageSharpTexture.cs:105-108 | row `y` sits at slots `[y*w, y*w+w)` of the layout |
| MipChain.PixelsAt | src/Veldrid.ImageSharp/ImageSharpTexture.cs:178-182 | pixel `x` of row `y` sits at slot `y*w + x` |
| MipChain.RowWindowsDisjoint | src/Veldrid.ImageSharp/ImageSharpTexture.cs:105-108 | the windows of two rows `y < y'` do not overlap: row `y` ends by `y'*w` |
| MipChain.PixelsCover | src/Veldrid.ImageSharp/ImageSharpTexture.cs:174-183 | every slot `i < h*w` lies in some row window: it holds pixel `i % w` of row `i / w` |
| MipChain.RowOfSlot | src/Veldrid.ImageSharp/ImageSharpTexture.cs:101 | a slot below `h*w` has a row below `h` and a column below `w`, and decomposes as `row*w + column` |
| MipChain.OffsetInBytes | src/Veldrid.ImageSharp/ImageSharpTexture.cs:88 | `4 * Offset(y, w)` pixels-to-bytes equals `Offset(y, 4*w)`: a pixel row is `4w` bytes |
| MipChain.LevelBytesRow | src/Veldrid.ImageSharp/ImageSharpTexture.cs:88-89 | a level's bytes are `4*w*h` long and row `y` is the bytes `[y*4w, y*4w + 4w)` |
| Graphics.PixelToBytes | src/Veldrid.ImageSharp/ImageSharpTexture.cs:40 | an RGBA32 pixel is four bytes, R, G, B, A in order |
| Graphics.PixelBytes | src/Veldrid.ImageSharp/ImageSharpTexture.cs:88-89 | a pixel run is four bytes per pixel |
| Graphics.PixelBytesAppend | src/Veldrid.ImageSharp/ImageSharpTexture.cs:107 | the bytes of two consecutive runs are the two byte runs, in order |
| Graphics.PixelBytesAt | src/Veldrid.ImageSharp/ImageSharpTexture.cs:40 | byte `4i + c` of a run is channel `c` of pixel `i` |
| Graphics.OffsetIsProduct | src/Veldrid.ImageSharp/ImageSharpTexture.cs:139-140 | the stride-by-stride row start equals `y * stride` |
| Graphics.OffsetMonotone | src/Veldrid.ImageSharp/ImageSharpTexture.cs:137-142 | a later row starts at least one stride after an earlier one |
| Graphics.Halved | src/Veldrid.ImageSharp/ImageSharpTexture.cs:16-18 | halving never grows a dimension |
| Graphics.MipExtent | src/Veldrid.ImageSharp/ImageSharpTexture.cs:16-18 | a mip extent is at least 1, at most the base size, and level 0 is the base size |
| TextureUpload.CopySpan | src/Veldrid.ImageSharp/ImageSharpTexture.cs:107 | `Span.CopyTo` writes the row at the given offset and leaves every other slot as it was |
| TextureUpload.PixelsPrefixStep | src/Veldrid.ImageSharp/ImageSharpTexture.cs:105-108 | one more gathered row appends exactly that row's pixels |
| TextureUpload.GatherRows | src/Veldrid.ImageSharp/ImageSharpTexture.cs:101-109 | after the loop the first `w*h` slots of the buffer are the image's pixels in row-major order and the slots past `w*h` are untouched |
| TextureUpload.GatheredPixel | src/Veldrid.ImageSharp/ImageSharpTexture.cs:174-183 | after the gather slot `y*w + x` holds pixel `x` of row `y` |
| TextureUpload.LevelSource | src/Veldrid.ImageSharp/ImageSharpTexture.cs:165-188 | the contiguous branch and the gather branch hand the device the same bytes: the level's pixels row by row |
| TextureUpload.UpdateCalls | src/Veldrid.ImageSharp/ImageSharpTexture.cs:157 | the update path makes one call per level |
| TextureUpload.UpdateCallsAt | src/Veldrid.ImageSharp/ImageSharpTexture.cs:157-190 | call `k` of the update path is the call for level `k`: levels are uploaded in increasing order |
| TextureUpload.UpdatePathLevel | src/Veldrid.ImageSharp/ImageSharpTexture.cs:163-187 | update call `k` targets mip level `k`, layer 0, origin (0,0,0), depth 1, the whole `w`×`h` level, and carries `4*w*h` bytes |
| TextureUpload.UpdatePathRow | src/Veldrid.ImageSharp/ImageSharpTexture.cs:174-187 | the bytes of update call `k` hold row `y` of level `k` at `[y*4w, y*4w + 4w)` |
| TextureUpload.UpdateLevel | src/Veldrid.ImageSharp/ImageSharpTexture.cs:159-189 | one pass of the level loop appends exactly the `UpdateTexture` call for that level |
| TextureUpload.CreateTextureViaUpdate | src/Veldrid.ImageSharp/ImageSharpTexture.cs:153-193 | the trace is the sampled texture's creation (level 0's size, all levels, one layer, the chain's format) followed by the update calls of all levels in increasing order; the returned texture is the one created, and exactly one device handle is used |
| TextureUpload.CreateDeviceTexture | src/Veldrid.ImageSharp/ImageSharpTexture.cs:67-70 | `CreateDeviceTexture` always leaves the update path's trace and uses one device handle, so two calls return distinct textures |
| TextureUpload.MappedRegionFits | src/Veldrid.ImageSharp/ImageSharpTexture.cs:129 | a mapped region of `rowPitch*height` bytes holds `height` rows at that pitch when the pitch is at least the row width |
| TextureUpload.WriteToStagingAndCopy | src/Veldrid.ImageSharp/ImageSharpTexture.cs:127-151 | three calls in order: map the staging level for writing, unmap it holding the source staged at the reported pitch, record a `w`×`h`×1, one-layer copy of the same level from the staging texture to the sampled one |
| TextureUpload.StagingLevelsGrow | src/Veldrid.ImageSharp/ImageSharpTexture.cs:81 | appending level `n`'s three calls to the record of levels below `n` gives the record of levels up to `n` |
| TextureUpload.StageLevel | src/Veldrid.ImageSharp/ImageSharpTexture.cs:83-115 | one pass of the staging loop appends exactly the `WriteToStagingAndCopy` calls for that level, whichever branch supplies the bytes |
| TextureUpload.StageLevels | src/Veldrid.ImageSharp/ImageSharpTexture.cs:81-116 | the loop appends the three calls of every level, in increasing level order |
| TextureUpload.CreateTextureViaStaging | src/Veldrid.ImageSharp/ImageSharpTexture.cs:72-125 | the trace creates the staging texture, the sampled texture and a command list and begins it, runs every level, then ends, submits, disposes of the staging texture and disposes of the command list, in that order; submit happens only after all levels, and exactly three device handles are used |
| TextureUpload.StagedLevelContents | src/Veldrid.ImageSharp/ImageSharpTexture.cs:131-142 | whichever copy branch runs, the unmapped staging level holds row `y` of the image at `[y*pitch, y*pitch + 4w)` and every padding byte as the device mapped it |
| StagingCopy.Splice | src/Veldrid.ImageSharp/ImageSharpTexture.cs:133 | overwriting a block keeps the length of the destination |
| StagingCopy.SpliceAt | src/Veldrid.ImageSharp/ImageSharpTexture.cs:141 | after a block copy a byte inside the block is the source's and a byte outside it is the old one |
| StagingCopy.SpliceMerge | src/Veldrid.ImageSharp/ImageSharpTexture.cs:105-108 | two adjacent block copies are one copy of the two blocks joined |
| StagingCopy.RowsFitMeans | src/Veldrid.ImageSharp/ImageSharpTexture.cs:139-141 | `height` rows at a pitch fit a region exactly when the last row, starting at `(height-1)*pitch`, ends within it |
| StagingCopy.RowsFitPrefix | src/Veldrid.ImageSharp/ImageSharpTexture.cs:137 | if `height` rows fit, so do the first `k` |
| StagingCopy.RowWindowFits | src/Veldrid.ImageSharp/ImageSharpTexture.cs:139-141 | the destination and source windows of each row `y < height` lie inside their buffers |
| StagingCopy.RowCopy | src/Veldrid.ImageSharp/ImageSharpTexture.cs:137-142 | the row-by-row copy keeps the mapped region's length |
| StagingCopy.RowCopyStep | src/Veldrid.ImageSharp/ImageSharpTexture.cs:139-141 | one more loop pass copies the `rowWidth` source bytes at `y*rowWidth` into the destination at `y*rowPitch` |
| StagingCopy.RowCopyInWindow | src/Veldrid.ImageSharp/ImageSharpTexture.cs:139-141 | after the row loop byte `x` of row `y`'s destination window is source byte `y*rowWidth + x` |
| StagingCopy.RowCopyOutside | src/Veldrid.ImageSharp/ImageSharpTexture.cs:137-142 | after the row loop a byte outside every row window is as the device mapped it |
| StagingCopy.BulkCopy | src/Veldrid.ImageSharp/ImageSharpTexture.cs:133 | the bulk copy puts the first `totalBytes` source bytes at offset 0 and leaves the rest of the region as it was |
| StagingCopy.RowCopyByteIsBulk | src/Veldrid.ImageSharp/ImageSharpTexture.cs:131-142 | with pitch equal to the row width, each byte of the row copy is the source byte below `rows*rowWidth` and the old byte above it |
| StagingCopy.RowCopyIsBulk | src/Veldrid.ImageSharp/ImageSharpTexture.cs:131-142 | when `RowPitch == rowWidth` the row-by-row loop and the bulk copy of `height*rowWidth` bytes give the same region |
| StagingCopy.StagedBytesIsRowCopy | src/Veldrid.ImageSharp/ImageSharpTexture.cs:131-142 | whichever branch `WriteToStagingAndCopy` takes, the region ends as the row-by-row copy leaves it |
| StagingCopy.StagedBytesRows | src/Veldrid.ImageSharp/ImageSharpTexture.cs:137-142 | every byte of every row window holds the matching source byte, and every byte outside the windows is unchanged |
| StagingCopy.StagedRowWindow | src/Veldrid.ImageSharp/ImageSharpTexture.cs:139-141 | row `y`'s destination window `[y*pitch, y*pitch + rowWidth)` equals source bytes `[y*rowWidth, y*rowWidth + rowWidth)` |
| StagingCopy.CopyBlock | src/Veldrid.ImageSharp/ImageSharpTexture.cs:133 | `Unsafe.CopyBlock` writes `count` source bytes at the destination offset and nothing else |
| StagingCopy.CopyToMapped | src/Veldrid.ImageSharp/ImageSharpTexture.cs:131-143 | the branch on `rowWidth == RowPitch` leaves the mapped region holding the staged bytes |
| StagingCopy.CopyRows | src/Veldrid.ImageSharp/ImageSharpTexture.cs:137-142 | the `for` loop over rows leaves the region as the row-by-row copy specifies |
| StagingCopy.CopyRow | src/Veldrid.ImageSharp/ImageSharpTexture.cs:139-141 | one pass copies row `y` from `y*rowWidth` to `y*RowPitch` |
| Device.GraphicsDevice.CreateTexture | src/Veldrid.ImageSharp/ImageSharpTexture.cs:74 | creating a texture records the call and hands out a fresh handle with the given description |
| Device.GraphicsDevice.CreateCommandList | src/Veldrid.ImageSharp/ImageSharpTexture.cs:78 | creating a command list records the call and hands out a fresh handle |
| Device.GraphicsDevice.UpdateTexture | src/Veldrid.ImageSharp/ImageSharpTexture.cs:187 | `UpdateTexture` records the first `sizeInBytes` source bytes and the target region |
| Device.GraphicsDevice.Map | src/Veldrid.ImageSharp/ImageSharpTexture.cs:129 | mapping records the call with the pitch the device reports (at least the packed row width) and the region it hands out, `pitch * height` bytes |
| Device.GraphicsDevice.Unmap | src/Veldrid.ImageSharp/ImageSharpTexture.cs:145 | unmapping records the bytes the region holds |
| Device.GraphicsDevice.Begin | src/Veldrid.ImageSharp/ImageSharpTexture.cs:79 | records the call |
| Device.GraphicsDevice.CopyTexture | src/Veldrid.ImageSharp/ImageSharpTexture.cs:147-150 | records the copy with every argument |
| Device.GraphicsDevice.End | src/Veldrid.ImageSharp/ImageSharpTexture.cs:118 | records the call |
| Device.GraphicsDevice.SubmitCommands | src/Veldrid.ImageSharp/ImageSharpTexture.cs:119 | records the call |
| Device.GraphicsDevice.DisposeTexture | src/Veldrid.ImageSharp/ImageSharpTexture.cs:121 | records the call |
| Device.GraphicsDevice.DisposeCommandList | src/Veldrid.ImageSharp/ImageSharpTexture.cs:122 | records the call |
| Device.GraphicsDevice.constructor | src/Veldrid.ImageSharp/ImageSharpTexture.cs:129 | a new device has an empty trace and reports pitches no smaller than the packed row |
| ShaderHelper.GetBytecodeExtension | src/NeoDemo/ShaderHelper.cs:85-92 | `.spv` exactly for Vulkan, and an invalid-backend error exactly for any other backend |
| ShaderHelper.GetSourceExtension | src/NeoDemo/ShaderHelper.cs:94-101 | `.450.glsl` exactly for Vulkan, and an invalid-backend error exactly for any other backend |
| ShaderHelper.StageExtension | src/NeoDemo/ShaderHelper.cs:50 | `vert` exactly for the vertex stage and `frag` for every other stage |
| ShaderHelper.BaseName | src/NeoDemo/ShaderHelper.cs:51 | the name is the set name, a dot and the four-letter stage extension |
| ShaderHelper.ReadUInt32LE | src/NeoDemo/ShaderHelper.cs:64 | `BitConverter.ToUInt32` on a little-endian host: byte 0 is the least significant byte of the value, byte 3 the most significant |
| ShaderHelper.UInt32ToBytesLE | src/NeoDemo/ShaderHelper.cs:64 | a 32-bit value is four bytes, least significant first |
| ShaderHelper.ReadWriteUInt32 | src/NeoDemo/ShaderHelper.cs:64 | reading back the little-endian bytes of a value gives the value |
| ShaderHelper.MagicBytes | src/NeoDemo/ShaderHelper.cs:64-65 | the first four bytes read as the magic number exactly when they are `03 02 23 07` |
| ShaderHelper.ReadWriteBytes | src/NeoDemo/ShaderHelper.cs:64 | writing back the value read from four bytes gives those bytes |
| ShaderHelper.ReadAllBytes | src/NeoDemo/ShaderHelper.cs:60 | the contents exactly when the file exists, else FileNotFound for that path |
| ShaderHelper.LoadBytecode | src/NeoDemo/ShaderHelper.cs:48-83 | for Vulkan: FileNotFound naming `Shaders/<set>.<ext>.spv` exactly when it is missing; an invalid-SPIR-V error with the path and the value read exactly when a file of at least 4 bytes has the wrong magic; otherwise the file byte for byte. Any other backend fails with invalid backend |
| ShaderHelper.ShadersPath | src/NeoDemo/ShaderHelper.cs:55-56 | a relative set name is looked up as `Shaders/<set>.<vert or frag><ext>` |
| ShaderHelper.ShortFilePasses | src/NeoDemo/ShaderHelper.cs:62 | a file shorter than four bytes is returned without a header check |
| ShaderHelper.SpecializationsFor | src/NeoDemo/ShaderHelper.cs:33-43 | four constants with ids 100 to 103 in order; constant 103 holds exactly when the format is `B8_G8_R8_A8_UNorm_SRgb` or `R8_G8_B8_A8_UNorm_SRgb` |
| ShaderHelper.GetSpecializations | src/NeoDemo/ShaderHelper.cs:29-46 | a device without a main swapchain or without a colour attachment fails; otherwise the four constants for the first attachment's format |
| ShaderHelper.SpecializationsShape | src/NeoDemo/ShaderHelper.cs:31-43 | exactly four constants, ids 100 to 103 in order: clip-space Y inversion, false, zero-to-one depth range, and whether the format is one of the two sRGB formats |
| ShaderHelper.FormatOnlyAffects103 | src/NeoDemo/ShaderHelper.cs:40-43 | changing only the swapchain format changes at most constant 103 |
| ShaderHelper.Shader.constructor | src/NeoDemo/ShaderHelper.cs:20-21 | a created shader keeps its description and starts unnamed |
| ShaderHelper.ShaderFactory.constructor | src/NeoDemo/ShaderHelper.cs:20-21 | a new factory has created nothing |
| ShaderHelper.ShaderFactory.CreateShader | src/NeoDemo/ShaderHelper.cs:20-21 | a fresh shader with the description, recorded after the earlier ones |
| ShaderHelper.LoadSPIRV | src/NeoDemo/ShaderHelper.cs:9-27 | both bytecodes load before any shader is created: a failed load (vertex first) creates nothing; on success two distinct fresh shaders with entry point `main`, the debug flag, and names `<set>-Vertex`, `<set>-Fragment` |
| EventSystem.RemoveFirst | src/Veldrid/GameplayFoundations/EventSystem/EventSystem.cs:62 | `ImmutableList.Remove` drops one element when the handler is present and leaves the list alone otherwise, adding nothing |
| EventSystem.FirstIndex | src/Veldrid/GameplayFoundations/EventSystem/EventSystem.cs:62 | the first position of the handler in the list |
| EventSystem.RemoveFirstAt | src/Veldrid/GameplayFoundations/EventSystem/EventSystem.cs:62 | removal cuts out the first occurrence and keeps the order of the others |
| EventSystem.RemoveFirstNoDuplicates | src/Veldrid/GameplayFoundations/EventSystem/EventSystem.cs:62 | removing from a list without duplicates keeps it without duplicates and leaves the handler absent |
| EventSystem.RemoveFirstAppended | src/Veldrid/GameplayFoundations/EventSystem/EventSystem.cs:62 | removing a just-appended absent handler restores the list |
| EventSystem.Subscribed | src/Veldrid/GameplayFoundations/EventSystem/EventSystem.cs:48-49 | a new key gets `[handler]`; an existing key's list is kept as a prefix and grows by at most the handler, not at all when it is present; every other key is unchanged |
| EventSystem.Unsubscribed | src/Veldrid/GameplayFoundations/EventSystem/EventSystem.cs:61-62 | a new key gets `[]`; an existing key loses one entry when the handler is present, is unchanged when it is not, and gains nothing; every other key is unchanged |
| EventSystem.SubscribedNoDuplicates | src/Veldrid/GameplayFoundations/EventSystem/EventSystem.cs:49 | subscribing keeps every handler list free of duplicates |
| EventSystem.UnsubscribedNoDuplicates | src/Veldrid/GameplayFoundations/EventSystem/EventSystem.cs:62 | unsubscribing keeps every list free of duplicates, and the handler is gone from its key |
| EventSystem.SubscribeIdempotent | src/Veldrid/GameplayFoundations/EventSystem/EventSystem.cs:49 | subscribing a present handler changes nothing, and subscribing twice is subscribing once |
| EventSystem.SubscribeThenUnsubscribe | src/Veldrid/GameplayFoundations/EventSystem/EventSystem.cs:49-62 | subscribing an absent handler to an existing key and unsubscribing it restores the map |
| EventSystem.Failing | src/Veldrid/GameplayFoundations/EventSystem/EventSystem.cs:27-34 | the logged handlers are exactly the throwing ones of the list |
| EventSystem.EventSystem.constructor | src/Veldrid/GameplayFoundations/EventSystem/EventSystem.cs:12-14 | a new registry is empty and not disposed |
| EventSystem.EventSystem.Publish | src/Veldrid/GameplayFoundations/EventSystem/EventSystem.cs:16-42 | ObjectDisposed exactly when disposed; otherwise every handler of the key once, in list order, with the throwing ones logged and the rest still run, and nothing for a key with no entry |
| EventSystem.EventSystem.Subscribe | src/Veldrid/GameplayFoundations/EventSystem/EventSystem.cs:44-55 | once disposed: ObjectDisposed and no change; otherwise the subscribed map, keeping the no-duplicates invariant |
| EventSystem.EventSystem.Unsubscribe | src/Veldrid/GameplayFoundations/EventSystem/EventSystem.cs:57-68 | once disposed: ObjectDisposed and no change; otherwise the unsubscribed map, keeping the no-duplicates invariant |
| EventSystem.EventSystem.Dispose | src/Veldrid/GameplayFoundations/EventSystem/EventSystem.cs:70-74 | the registry ends disposed; the handlers are cleared by the first call and untouched by later ones |
| EventSystem.EventSystem.DisposeCore | src/Veldrid/GameplayFoundations/EventSystem/EventSystem.cs:76-87 | the flag is always set; the handlers are cleared exactly when not yet disposed and `disposing` holds |
| Ioc.Configure | src/Veldrid/CoreSystems/ModuleOrchastration/Ioc.cs:90-97 | one `ConfigureServices` call: it passes exactly when the argument is non-null and nothing is stored, and then stores it; a failing call keeps the stored provider |
| Ioc.ConfigureOutcome | src/Veldrid/CoreSystems/ModuleOrchastration/Ioc.cs:88-98 | a configuration passes exactly when the argument is non-null and nothing is stored, and then stores it; null fails with ArgumentNull, a second one with AlreadyConfigured, both leaving the state as it was |
| Ioc.FirstProvider | src/Veldrid/CoreSystems/ModuleOrchastration/Ioc.cs:92 | the first non-null provider of a call sequence, which is one of the arguments, or none when all are null |
| Ioc.ConfiguredStays | src/Veldrid/CoreSystems/ModuleOrchastration/Ioc.cs:92-97 | once a provider is stored, no sequence of further calls changes it |
| Ioc.FirstConfigurationWins | src/Veldrid/CoreSystems/ModuleOrchastration/Ioc.cs:88-98 | from the unconfigured state the stored provider is the first non-null one passed |
| Ioc.Ioc.constructor | src/Veldrid/CoreSystems/ModuleOrchastration/Ioc.cs:25 | a new locator holds no provider |
| Ioc.Ioc.GetService | src/Veldrid/CoreSystems/ModuleOrchastration/Ioc.cs:30-42 | a null type fails with ArgumentNull before the configured check; unconfigured fails with NotConfigured; otherwise the provider's answer for the type |
| Ioc.Ioc.GetServiceOf | src/Veldrid/CoreSystems/ModuleOrchastration/Ioc.cs:50-60 | NotConfigured exactly when unconfigured; otherwise the provider's answer |
| Ioc.Ioc.GetRequiredService | src/Veldrid/CoreSystems/ModuleOrchastration/Ioc.cs:71-81 | NotConfigured exactly when unconfigured, NotRegistered exactly when the type is not registered, else the registered (non-null) service |
| Ioc.Ioc.ConfigureServices | src/Veldrid/CoreSystems/ModuleOrchastration/Ioc.cs:88-98 | the new stored provider and outcome are those of one configuration step |
| Paths.Combine | src/Veldrid.Tests/TestShaders.cs:29-32 | a rooted second part replaces the first, an empty first part is dropped, and the result ends with the second part |
| Paths.CombineJoins | src/NeoDemo/ShaderHelper.cs:55-56 | two relative non-empty parts are joined by exactly one separator |
| Paths.Combine3 | src/Veldrid.Tests/TestShaders.cs:29-32 | the three-part combine ends with its last part |
| Paths.Combine3Joins | src/Veldrid.Tests/TestShaders.cs:29-32 | a base ending in a separator, a directory and a relative file name are joined with one separator between the last two |
| TestShaders.LowerChar | src/Veldrid.Tests/TestShaders.cs:32 | an ASCII capital maps to its small letter and any other character to itself |
| TestShaders.ToLower | src/Veldrid.Tests/TestShaders.cs:32 | lower-casing keeps the length and maps each character on its own |
| TestShaders.Stage4 | src/Veldrid.Tests/TestShaders.cs:32 | the stage part of the name has exactly four characters |
| TestShaders.Stage4Letters | src/Veldrid.Tests/TestShaders.cs:32 | the stage part is the first four letters of the stage name, each lower-cased |
| TestShaders.Stage4Names | src/Veldrid.Tests/TestShaders.cs:15-32 | Vertex, Fragment and Compute map to `vert`, `frag` and `comp`; Geometry to `geom`; both tessellation stages to `tess` |
| TestShaders.TessellationStagesShareAPath | src/Veldrid.Tests/TestShaders.cs:32 | the two tessellation stages get the same path |
| TestShaders.GetPath | src/Veldrid.Tests/TestShaders.cs:27-33 | the path ends in `<set>.<stage4>` with no extension, and for a base ending in a separator and a relative set name it is exactly `<base>Shaders/<set>.<stage4>` |
| TestUtils.GetString | src/Veldrid.Tests/TestUtils.cs:56-65 | the count is the index of a zero byte with every earlier byte non-zero, and the string is the prefix of that length |
| TestUtils.FirstZeroUnique | src/Veldrid.Tests/TestUtils.cs:58-62 | the first zero byte is unique, so the scan's count is determined |
| TestUtils.ReadbackLayers | src/Veldrid.Tests/TestUtils.cs:121-125 | the layer count stays a `uint`; it is `ArrayLayers` without the cube-map flag and `6*ArrayLayers` with it when that fits in 32 bits |
| TestUtils.GetTextureReadback | src/Veldrid.Tests/TestUtils.cs:113-140 | a staging texture is returned as is exactly when it has Staging usage; otherwise the copy has the same width, height, depth, mip levels, format and type, the readback layer count and Staging as its only usage |
| TestUtils.TextureReadbackIsFinal | src/Veldrid.Tests/TestUtils.cs:115-130 | a readback texture needs no further readback, and a cube map's readback has six layers per cube |
| TestUtils.GetBufferReadback | src/Veldrid.Tests/TestUtils.cs:92-111 | a staging buffer is returned as is exactly when it has Staging usage; otherwise a staging buffer of the same size receiving the range `[0, SizeInBytes)` at offset 0 |
| TestUtils.BufferReadbackIsFinal | src/Veldrid.Tests/TestUtils.cs:101-104 | a readback buffer needs no further readback, and the copied range fills it exactly |

## Left out

- Image decoding (`CreateDefaultImage`) and mip generation (`MipmapHelper.GenerateMipmaps`) are foreign library calls. `FromImage` and `FromImageLinear` take the generated chain as a parameter. The path and stream constructors are these on the decoded image, with their `mipmap = true` default written out by the caller.
- The halving rule of the chain (each level half the one before, down to 1×1) is stated only as a documentation comment. It is the precondition `HalvingChain` of the staging path and is not proved. The staging path needs it because the mapped region is sized from the staging texture's level extents.
- `HalvingChain` uses `MipExtent`, the extent rule of the texture description. It is taken here as halving with a floor of 1; the device code that defines it is not part of this model.
- `DangerousTryGetSinglePixelMemory`, `fixed` pinning and raw pointers are left out. Whether an image is contiguous is a flag on the image, and the source pointer is the level's byte sequence.
- `TextureUpload.GatherRows` / `LevelSource`: `ArrayPool.Rent` is modelled as a fresh array of exactly `w*h` pixels, and the pool's release is not modelled. `GatherRows` itself allows a longer array and leaves its extra slots alone. The model does not capture the stale contents such an array can hold, since they are never read.
- Integer widths: `int` and `uint` arithmetic on sizes (`w * h * 4`, `y * RowPitch`) uses unbounded integers, so images large enough to overflow 32 bits are not modelled. The one place where wrap-around is modelled is `TestUtils.ReadbackLayers` (`layers *= 6` wraps at 2^32).
- `StagingCopy.CopyRows`: requires `rowWidth <= RowPitch`, which is what the device pitch provides (the recording device never reports less). A device that reports a smaller pitch, with overlapping rows, is not modelled.
- The device's map contents are whatever the device hands out. The model records them and proves that padding bytes keep them, but says nothing about their values.
- The GPU device, resource factory and command lists are a recording object (`Device.GraphicsDevice`). Execution of the recorded commands, `WaitForIdle`, and what the GPU does with a copy are not modelled.
- Exception-safe cleanup: no exception is raised by the modelled upload paths, and there is no try/finally in the source to model.
- `Paths.Combine` / `Paths.Combine3`: only the Unix behaviour is modelled. The separator is `/`, and a path is rooted when it starts with `/`. Windows drive letters, `\` and the alternate separator are not modelled.
- `ShaderHelper.LoadBytecode`: `AssetHelper.GetPath` is the parameter `resolve`; AssetHelper.cs is not part of this model. `File.Exists` and `File.ReadAllBytes` are a map from path to contents.
- `ShaderHelper.ReadUInt32LE`: `BitConverter.ToUInt32` is modelled as little-endian, the byte order of every host the project targets. A big-endian host is not modelled.
- The non-Vulkan branch of `LoadBytecode` (reading the generated GLSL source) is modelled as written. It always fails in `GetSourceExtension`, so no source file is ever read. `GraphicsBackend` names only `Vulkan`.
- The `#if DEBUG` switch of `LoadSPIRV` is the parameter `debug`. The `GraphicsDevice` parameter of `LoadSPIRV`, which the source does not use, is left out.
- `GetSpecializations`: the device is given by the facts the method reads: the two flags, and the main swapchain's colour attachment formats. The `glOrGles` local is the constant false.
- `ShaderStages` is modelled as single stages. Combined stage flags are not modelled, so their names are never taken.
- `EventSystem`: the `ConcurrentDictionary`, the `ImmutableList` lock-free reads and the handler delegates' identity are modelled sequentially, with a map, sequences and an abstract handler type. Event types are an abstract key type.
- `EventSystem.EventSystem.Publish`: handler invocation is given by which handlers throw (`throws`), and a publish returns the handlers it invoked and logged. Handler side effects, the logger and the event payloads (`sender`, `eventData`) are not modelled.
- `EventSystem.EventSystem.Dispose`: `GC.SuppressFinalize` is runtime bookkeeping with no effect on the registry.
- `Ioc`: the static `Default` instance, `volatile` and `Interlocked.CompareExchange` are modelled as one sequential object. A null `serviceType` is `None`.
- `Ioc.Ioc.GetServiceOf`: the `(T?)` cast of `GetService<T>` cannot fail in the model, because services of one locator share one type. A provider answering with an object of the wrong type is not modelled.
- `TestUtils.GetString`: the UTF-8 decoding of the prefix is left out; the result is the prefix's bytes.
- `TestUtils.GetTextureReadback` / `GetBufferReadback`: the creation, copy, submit and wait commands that follow the description are left out. The model returns the description and the copied range.
- The test device creation, SDL window and RenderDoc setup in TestUtils.cs are plumbing.
- The window, input, logging and module start-up services of the repository are plumbing and are not part of this model.
