# Antares core bookkeeping, modelled in Dafny

Antares is a Unity render pipeline that ray-marches a signed-distance-field (SDF) scene
and simulates a particle-in-cell fluid against it. The GPU work is done by compute
kernels. Around those kernels, the C# side does a good deal of plain integer and
sequence bookkeeping, and this project models that part:

- fluid emitters: their property bytes, counters and descriptor lists, the registry of
  enabled emitter components, and the two-pass builder that splits emitter particle
  counts into dispatch records of at most 1024 particles and lays parameter bytes out
  back to back;
- the shared constant-buffer arena, in both of its revisions (`AShaderSpecifications`
  and the older `AShaderSpecs`): aligned registration, the alignment assertions, the
  bound window size and the stride count;
- SDF generation bookkeeping: volume extents and the x/y/z to width/depth/height axis
  mapping, indirect-argument and append buffer sizing, the back-to-back layout of the
  mip-dispatch segments, dispatch-group arithmetic, brush record bit-packing, the
  prefix-sum layout of brush parameters, shape parameter counts, and SDF byte
  quantisation;
- the load and unload lifecycles of the render pipeline, the physics pipeline and the
  singleton scene components, the word layout of the physics indirect-argument buffers
  and the order of the solver stages;
- utilities: the array-backed binary heap, the 3D texture atlas packer, capacity-reserving
  buffer allocation and bounded debug-log readback.

Every GPU resource is an abstract record (extent, mip count, word count, stride, valid
flag), and a recorded command is a plain datatype value. One Dafny module follows one
source file. `common.dfy` holds the shared `Wrappers` (`Option`, `Result`), `IntMath`
(powers of two, halving, clamping, the 32-bit integer ranges), `Vectors` (`Int3`, `Real3`) and
`SeqOps` (`Splice`).

Conventions:

- A `Debug.Assert` at the entry of an operation is a programmer error, so it becomes a
  `requires`.
- A data-dependent assertion inside a loop (a texture that does not fit its atlas
  chunk), a thrown exception and a null dereference become an `Err` result.
- Float quantities are `real`s. Struct sizes are constants computed from each struct's
  packed field layout.

The repository mixes revisions: `IFluidEmitter` declares `PropertyByteCount` and
`GetProperties`, while the batching builder calls `ParameterByteCount` and
`GetParameters`. The builder is modelled over an abstract emitter view (type, particle
count, parameter bytes) that covers both. `ARenderPipeline.GetPhysicsPipeline` calls a
constructor that `APhysicsPipeline` does not declare; the model treats the physics
pipeline as created there with its solver constants. `ARenderPipeline.cs` line 216
passes the `uint` argument offset to the `int mip` parameter of
`MipGenerationParameters` (`SDFGenerationCompute.cs` line 78), which C# does not
convert implicitly; the model reads it as `(int)dispatchArgumentsOffset`.
`SDFBrushCollection.cs` lines 116 and 118 name `SDFShape`, while the declared class is
`SDFShapes` (`SDFShapes.cs` line 10); the model reads `SDFShapes`.

## Model

| member | source | states |
|---|---|---|
| FluidEmitterBase.PropertyByteCount | Assets/Scripts/Physics/FluidEmitterBase.cs:48-54 | the byte count is a multiple of 4 whenever both property sizes are, which the constructor asserts; it is at least the emitter property size, and at least one particle property when there are particles |
| FluidEmitterBase.AddProperty | Assets/Scripts/Physics/FluidEmitterBase.cs:29-41 | called directly on the overload set, appending a value yields the unchanged buffer followed by exactly its bytes; the call fails iff the argument is the `NullFluidEmitterProperty` marker, whose overload throws |
| FluidEmitterBase.AddPropertyGeneric | Assets/Scripts/Physics/FluidEmitterBase.cs:15-36 | through the builder interface every argument goes to the generic overload: the buffer is kept and grows by the value's `sizeof`; for a real value this agrees with the direct call, and the marker appends a zero byte instead of throwing |
| FluidEmitterBase.AddAllProperties | Assets/Scripts/Physics/FluidEmitterBase.cs:29-41 | a run of direct calls succeeds iff no value is the marker, and then yields the buffer followed by every value's bytes in order |
| FluidEmitterBase.AddAllGeneric | Assets/Scripts/Physics/FluidEmitterBase.cs:15-36 | a run of interface calls yields the buffer followed by every value's bytes in order, and agrees with the run of direct calls whenever no value is the marker |
| FluidEmitterBase.GetProperties | Assets/Scripts/Physics/FluidEmitterBase.cs:56-71 | emitter-property bytes come first and particle-property bytes second, appended to the buffer; it never fails, and when every hook value is real it equals the two runs of direct calls; with the default hooks the buffer is unchanged |
| FluidEmitterBase.NullPropertyThroughHookAppendsByte | Assets/Scripts/Physics/FluidEmitterBase.cs:15-63 | a hook that adds the marker appends one zero byte, while a direct call with the marker fails |
| FluidEmitterBase.BytesLength | Assets/Scripts/Physics/FluidEmitterBase.cs:29-36 | properties of one size contribute count times that size in bytes |
| FluidEmitterBase.GetPropertiesAppendsByteCount | Assets/Scripts/Physics/FluidEmitterBase.cs:48-63 | with one emitter property and `ParticleCount` particle properties, `GetProperties` appends exactly `PropertyByteCount` bytes and keeps the earlier bytes |
| FluidEmitterBase.ClearEmitterDefault | Assets/Scripts/Physics/FluidEmitterBase.cs:65-67 | the default `ClearEmitter` (which calls the default `ClearParticles`) leaves the emitter state as it was |
| CubeEmitter.Serialize | Assets/Scripts/Physics/FluidEmitter.Cube.cs:12-30 | the serialised `Parameters` record is 12 floats holding `Min`, `Max`, `LinearVelocity` and `AngularVelocity` in that order |
| CubeEmitter.SerializeRoundTrip | Assets/Scripts/Physics/FluidEmitter.Cube.cs:12-30 | reading the four vectors back from the serialised record gives the record |
| CubeEmitter.NewCubeNoSpin | Assets/Scripts/Physics/FluidEmitter.Cube.cs:60-63 | the overload without angular velocity gives a cube that does not spin, with the other fields as passed |
| CubeEmitter.NewCubeAtRest | Assets/Scripts/Physics/FluidEmitter.Cube.cs:65-68 | the overload with bounds only gives a cube with zero linear and angular velocity |
| CubeEmitter.NewCubeEmpty | Assets/Scripts/Physics/FluidEmitter.Cube.cs:70-72 | the parameterless constructor gives the all-zero cube with no particles |
| CubeEmitter.AddParticles | Assets/Scripts/Physics/FluidEmitter.Cube.cs:74-79 | for a non-negative count, the particle count grows by exactly that count and nothing else changes |
| CubeEmitter.ClearParticles | Assets/Scripts/Physics/FluidEmitter.Cube.cs:91 | the particle count becomes 0 and nothing else changes |
| CubeEmitter.ClearEmitter | Assets/Scripts/Physics/FluidEmitter.Cube.cs:81-89 | bounds, velocities and count are all zeroed: the cube equals a new empty one |
| CubeEmitter.GetParameters | Assets/Scripts/Physics/FluidEmitter.Cube.cs:93-96 | the record handed to the builder serialises to the cube's bounds and velocities in declaration order |
| CubeEmitter.CubePropertyByteCount | Assets/Scripts/Physics/FluidEmitter.Cube.cs:10-30 | as declared, a cube reports the 48-byte parameter record plus one byte per particle (the `sizeof` of the empty per-particle struct), a multiple of 4 iff the particle count is |
| CubeEmitter.CubeLayoutFailsConstructorAssert | Assets/Scripts/Physics/FluidEmitterBase.cs:48-54 | the cube's layout fails the base constructor's per-particle `% 4` assertion, and a one-particle cube reports 49 bytes |
| CubeEmitter.CubePropertyByteCountIntended | Assets/Scripts/Physics/FluidEmitter.Cube.cs:10 | with the per-particle marker contributing no bytes, the layout passes both constructor assertions and a cube reports exactly the 48-byte record, a multiple of 4 |
| ParticleEmitter.EmitterParam | Assets/Scripts/Physics/FluidEmitter.Particle.cs:31 | reading `EmitterParam` always fails as not implemented |
| ParticleEmitter.AddParticle | Assets/Scripts/Physics/FluidEmitter.Particle.cs:41 | the descriptor count grows by one; the earlier descriptors are kept and the new one is last |
| ParticleEmitter.AddParticleAt | Assets/Scripts/Physics/FluidEmitter.Particle.cs:43 | the position/velocity overload adds the same descriptor as building it first |
| ParticleEmitter.ClearDescriptors | Assets/Scripts/Physics/FluidEmitter.Particle.cs:47 | the descriptor count becomes 0 |
| ParticleEmitter.GetDescriptors | Assets/Scripts/Physics/FluidEmitter.Particle.cs:35-39 | succeeds iff the count is at most the buffer length, and otherwise fails at the index equal to the buffer length; descriptor `i` lands in `buffer[i]` in order and the rest of the buffer is unchanged |
| EmitterRegistry.GetEmitterInstances | Assets/Scripts/Physics/FluidEmitterComponent.cs:13-31 | creates the list on first use; returns the emitters of the enabled components in enable order, and that list becomes the shared result list |
| EmitterRegistry.Awake | Assets/Scripts/Physics/FluidEmitterComponent.cs:38-41 | a woken component holds its created emitter and no list node |
| EmitterRegistry.OnEnable | Assets/Scripts/Physics/FluidEmitterComponent.cs:43-46 | fails iff the list was never created; otherwise it appends the component's emitter at the end |
| EmitterRegistry.EnableBeforeFirstQueryFails | Assets/Scripts/Physics/FluidEmitterComponent.cs:9-46 | enabling a component before any `GetEmitterInstances` call dereferences the null list |
| EmitterRegistry.OnEnableFixed | Assets/Scripts/Physics/FluidEmitterComponent.cs:43-46 | with the list created on demand, the enabled emitters become the previous ones followed by this one, and the registry stays well formed |
| EmitterRegistry.OnDisable | Assets/Scripts/Physics/FluidEmitterComponent.cs:48-52 | succeeds iff the component's node is in the list; removes exactly that node and keeps the others in order |
| EmitterRegistry.EnableThenDisableRestores | Assets/Scripts/Physics/FluidEmitterComponent.cs:43-52 | enabling a component and then disabling it restores the list of enabled emitters |
| EmitterBatching.ReserveEmitter | Assets/Scripts/Physics/FluidEmitterCompute.cs:78-92 | after one emitter the running group count is at most 1024, and below 1024 whenever the emitter pushed it past 1024; the dispatch and partition counts both grow by `running / 1024` and the running count becomes `running % 1024`, and that happens iff the running count exceeded 1024; the byte total grows by the emitter's byte count |
| EmitterBatching.ReserveLoop | Assets/Scripts/Physics/FluidEmitterCompute.cs:78-92 | over a list, 1024 times the new partitions plus the final running count accounts for every particle; the byte total grows by the emitters' byte counts |
| EmitterBatching.Reserve | Assets/Scripts/Physics/FluidEmitterCompute.cs:74-93 | the dispatch count grows by the number of emitters plus the number of new partitions, and the parameter-byte total by the sum of the byte counts |
| EmitterBatching.ReserveAllIsFlatLoop | Assets/Scripts/Physics/FluidEmitterCompute.cs:74-93 | reserving list by list counts the same as reserving the flattened list |
| EmitterBatching.Allocate | Assets/Scripts/Physics/FluidEmitterCompute.cs:95-105 | the dispatch, partition and parameter arrays get the reserved lengths; those counters and the group count are reset, but the inclusive sum is not |
| EmitterBatching.SplitGroups | Assets/Scripts/Physics/FluidEmitterCompute.cs:120-127 | the splitting loop writes one record per 1024 subtracted and leaves the running count at most 1024 and positive when it split; earlier records are kept |
| EmitterBatching.AddEmitter | Assets/Scripts/Physics/FluidEmitterCompute.cs:109-135 | succeeds iff the emitter's bytes and every record it writes fit the arrays; its bytes land at the running byte offset and the rest of the parameter buffer is unchanged |
| EmitterBatching.AddEmittersLoop | Assets/Scripts/Physics/FluidEmitterCompute.cs:109-135 | the emitters' bytes land back to back from the running offset |
| EmitterBatching.AddEmitters | Assets/Scripts/Physics/FluidEmitterCompute.cs:107-138 | the parameter buffer becomes the concatenation of the emitters' bytes spliced in at the running offset |
| EmitterBatching.TracksStep | Assets/Scripts/Physics/FluidEmitterCompute.cs:74-127 | one emitter keeps the filling pass in step with the counting pass: dispatch records written and the running count agree with what was reserved |
| EmitterBatching.BuildInBounds | Assets/Scripts/Physics/FluidEmitterCompute.cs:95-137 | every write index of the reserve, allocate and add sequence stays below the array length `Allocate` gave, and the parameter buffer ends exactly full with every emitter's bytes in order |
| EmitterBatching.AddEmittersOverwritesRecords | Assets/Scripts/Physics/FluidEmitterCompute.cs:122-137 | on two one-particle emitters with any 4-byte and 8-byte parameter blocks, the as-written builder leaves the dispatch count at 2 but only one record written, carrying the byte count as the parameter offset |
| EmitterBatching.AddEmitterFixed | Assets/Scripts/Physics/FluidEmitterCompute.cs:113-132 | the corrected step writes its final record at a fresh index with the running offset and keeps every earlier record |
| EmitterBatching.AddEmittersFixed | Assets/Scripts/Physics/FluidEmitterCompute.cs:107-138 | with the corrected step, the bytes land back to back, at least one record per emitter is written and earlier records are kept |
| EmitterBatching.FixedRecordsKept | Assets/Scripts/Physics/FluidEmitterCompute.cs:119-132 | emitter `k` gets a record with its type and the sum of the earlier emitters' byte counts as offset |
| EmitterBatching.FixedSumsOrdered | Assets/Scripts/Physics/FluidEmitterCompute.cs:46-53 | the records' inclusive particle sums are non-decreasing |
| EmitterBatching.BuildFixedPlacesEveryEmitter | Assets/Scripts/Physics/FluidEmitterCompute.cs:74-138 | the corrected build stays in bounds, fills the parameter buffer with every emitter's bytes in order, orders the sums and gives each emitter a record pointing at its own bytes |
| CBufferArena.AlignUp | Assets/Scripts/Graphics/AShaderSpecifications.cs:192 | the rounded total is aligned, at least the total and less than the total plus the alignment, and unchanged when already aligned |
| CBufferArena.MaskExpressionIsAlignUp | Assets/Scripts/Graphics/AShaderSpecifications.cs:192 | `(x + mask) & ~mask` with `mask = 2^k - 1` is the aligned round-up |
| CBufferArena.Span.Size | Assets/Scripts/Graphics/AShaderSpecifications.cs:18 | the bound window is the larger of the struct size and 16 bytes |
| CBufferArena.Register | Assets/Scripts/Graphics/AShaderSpecifications.cs:187-196 | a registration gets the running total as its offset; the new total is the old total plus the struct size, rounded up to the alignment |
| CBufferArena.RegisterAll | Assets/Scripts/Graphics/AShaderSpecifications.cs:187-196 | a run of registrations gets one span per struct, with the struct's size |
| CBufferArena.RegisterAllPrefix | Assets/Scripts/Graphics/AShaderSpecifications.cs:187-196 | registering more structs does not move the earlier spans |
| CBufferArena.RegisterAllTotal | Assets/Scripts/Graphics/AShaderSpecifications.cs:189-192 | the final total is the start plus the sum of the rounded struct sizes |
| CBufferArena.RegisterAllLayout | Assets/Scripts/Graphics/AShaderSpecifications.cs:187-192 | span `i` starts at the start plus the rounded sizes of the structs before it |
| CBufferArena.RegistrationsDisjoint | Assets/Scripts/Graphics/AShaderSpecifications.cs:187-196 | offsets are aligned, the struct regions are disjoint and inside the total, and with alignment at least 16 the bound windows are too |
| CBufferArena.MaskLog2 | Assets/Scripts/Graphics/AShaderSpecifications.cs:146 | a mask passing `mask & (mask + 1) == 0` is one less than a power of two |
| CBufferArena.AlignmentAcceptedIsPowerOfTwo | Assets/Scripts/Graphics/AShaderSpecifications.cs:145-147 | an alignment that passes both assertions is a power of two of at least 8 |
| CBufferArena.PowerOfTwoAccepted | Assets/Scripts/Graphics/AShaderSpecifications.cs:145-147 | every power of two of at least 8 passes both assertions |
| CBufferArena.StrideCount | Assets/Scripts/Graphics/AShaderSpecifications.cs:162 | the stride count is the least number of 4-byte strides covering the total |
| CBufferArena.Enable | Assets/Scripts/Graphics/AShaderSpecifications.cs:143-162 | the first span is at offset 0, span `i` at the rounded prefix sum, and the stride count covers the total |
| CBufferArena.EnableLaysOutDisjointly | Assets/Scripts/Graphics/AShaderSpecifications.cs:143-195 | the enabled layout is aligned and disjoint inside the buffer, and the bound windows are disjoint when the alignment is at least 16 |
| CBufferArena.BoundWindowsOverlapBelow16 | Assets/Scripts/Graphics/AShaderSpecifications.cs:16-18 | with the accepted alignment 8, any first struct of 1 to 8 bytes and any second struct get spans 0 and 8, and the first struct's bound window (at least 16 bytes) reaches into the second's span |
| CBufferArena.SmallAlignsToEight | Assets/Scripts/Graphics/AShaderSpecifications.cs:16-18 | with alignment 8, every size from 1 to 8 bytes rounds up to 8 |
| CBufferArena.OnEnable | Assets/Scripts/Graphics/AShaderSpecifications.cs:143-169 | the layout depends only on the alignment and the fixed registration order, not on the previous count, so re-running it gives identical offsets |
| CBufferArena.SubUpdateCBuffer | Assets/Scripts/Graphics/AShaderSpecifications.cs:25-30 | writes the data at the span's offset and nothing outside the bound window; fails iff the window leaves the buffer |
| CBufferArena.SetCBuffer | Assets/Scripts/Graphics/AShaderSpecifications.cs:32-36 | reading the reinterpreted array as the struct's `sizeof(T)` bytes: succeeds iff that array holds `Size` bytes and the window fits the buffer; then writes the data at the offset and nothing else |
| CBufferArena.SetCBufferRejectsSmallStructs | Assets/Scripts/Graphics/AShaderSpecifications.cs:32-36 | a 12-byte struct has a 16-byte window, so copying `Size` bytes out of its 12-byte array fails |
| CBufferArena.SetCBufferFixed | Assets/Scripts/Graphics/AShaderSpecifications.cs:32-36 | copying only the struct's own bytes succeeds iff the window fits, and then agrees with `SubUpdateCBuffer` |
| ShaderSpecsLegacy.OnEnable | Assets/Scripts/Graphics/AShaderSpecs.cs:124-140 | the older revision registers only its four initialised specs, each at its rounded prefix-sum offset, and its count covers the total |
| ShaderSpecsLegacy.LegacyLayoutIsPrefixOfNewer | Assets/Scripts/Graphics/AShaderSpecs.cs:130-137 | the older layout is a prefix of the newer one that also registers the fluid-debug spec |
| RenderPipeline.DispatchReadsHeader | Assets/Scripts/Graphics/ARenderPipeline.cs:439-471 | an indirect dispatch at word offset `o` reads words `o+1..o+3`, which lie inside a segment of `count + 4` words |
| RenderPipeline.IndirectBufferSeeded | Assets/Scripts/Graphics/ARenderPipeline.cs:444-456 | the indirect buffer has `count + 4` words, its seed writes fit, and the dispatch triple reads the seeded values |
| RenderPipeline.AppendBufferSeeded | Assets/Scripts/Graphics/ARenderPipeline.cs:458-465 | the append buffer has `count + 1` words, word 0 is seeded to 1 and no other word is written |
| RenderPipeline.SegmentCellsBound | Assets/Scripts/Graphics/ARenderPipeline.cs:192-204 | the cells of the first `n` mip segments are bounded by the geometric sum `(8^n - 1) G / 7 / 8^n` |
| RenderPipeline.SegmentsFit | Assets/Scripts/Graphics/ARenderPipeline.cs:189-204 | the allocated length `(a-1)G/(7a) + 4(m-1)` holds every segment laid out back to back |
| RenderPipeline.SegmentStartMonotone | Assets/Scripts/Graphics/ARenderPipeline.cs:196-204 | segment `i` ends before segment `j` starts for `i < j`, so the segments do not overlap |
| RenderPipeline.GenerateVolumeMips | Assets/Scripts/Graphics/ARenderPipeline.cs:176-240 | with the corrected per-level parameters (level `i + 1` built from mip `i + 1`): the buffer has the computed length; one seed per level at its segment start, all inside the buffer; level `i+1`'s dispatch reads its own segment, with thread groups halved from the material extent / 4 |
| RenderPipeline.InitializeSegments | Assets/Scripts/Graphics/ARenderPipeline.cs:196-204 | the initialisation loop seeds the segments in order at their starts |
| RenderPipeline.DispatchLevels | Assets/Scripts/Graphics/ARenderPipeline.cs:210-239 | the dispatch loop visits the same segment offsets in the same order |
| RenderPipeline.LevelReadsOwnSeed | Assets/Scripts/Graphics/ARenderPipeline.cs:196-238 | the words a level's dispatch reads are the ones its own seed wrote |
| RenderPipeline.MipParametersAsWrittenWrong | Assets/Scripts/Graphics/ARenderPipeline.cs:214-217 | passing the argument offset where the mip level is expected gives zero parameters for the first level and fails the range assertion at the second, while the level numbers give the scene extent and its halves |
| RenderPipeline.NewPipeline | Assets/Scripts/Graphics/ARenderPipeline.cs:33-36 | a new pipeline holds no scene, no volumes and no constant buffer |
| RenderPipeline.ResizedVolumes | Assets/Scripts/Graphics/ARenderPipeline.cs:66-74 | the volumes have the scene extent and are paired; they are kept iff both exist, are created and already have that extent |
| RenderPipeline.EnsuredConstantBuffer | Assets/Scripts/Graphics/ARenderPipeline.cs:76-77 | the constant buffer is valid afterwards, and a valid one is kept |
| RenderPipeline.BrushRecords | Assets/Scripts/Graphics/ARenderPipeline.cs:93-100 | one record per brush, carrying its type ordinal, shifted material id and transform; the packed count and offset decode back when in range |
| RenderPipeline.LoadScene | Assets/Scripts/Graphics/ARenderPipeline.cs:56-170 | an empty scene leaves the pipeline untouched and records nothing; otherwise the scene is loaded into volumes of its extent and the recorded commands follow the generation order |
| RenderPipeline.UnloadScene | Assets/Scripts/Graphics/ARenderPipeline.cs:242-255 | unloading an unloaded pipeline only logs; otherwise it releases the volumes and the constant buffer and clears the loaded flag |
| RenderPipeline.UnloadTwiceOnlyLogs | Assets/Scripts/Graphics/ARenderPipeline.cs:242-248 | a second unload changes nothing and only logs |
| RenderPipeline.Render | Assets/Scripts/Graphics/ARenderPipeline.cs:257-263 | a frame is drawn iff a scene is loaded and enabled; otherwise the scene is unloaded |
| RenderPipeline.Dispose | Assets/Scripts/Graphics/ARenderPipeline.cs:38-46 | disposing with `disposing` set does nothing; otherwise the scene ends unloaded |
| RenderUtilities.CreateRWVolumeRT | Assets/Scripts/Graphics/ARenderUtilities.cs:48-77 | reading a created volume's extent back gives the requested size (x to width, y to depth, z to height); mipmaps are on iff the mip count exceeds 1, with random write on and auto-generation off |
| RenderUtilities.ReserveComputeBuffer | Assets/Scripts/Graphics/ARenderUtilities.cs:83-97 | a missing buffer is allocated; a valid buffer with enough capacity and the same stride is kept; otherwise the old one is released and one of exactly the capacity allocated; afterwards capacity and stride always suffice |
| RenderUtilities.ReserveIsIdempotent | Assets/Scripts/Graphics/ARenderUtilities.cs:83-97 | reserving again for the same or a smaller capacity keeps the buffer |
| RenderUtilities.FullScreenMesh | Assets/Scripts/Graphics/ARenderUtilities.cs:9-22 | each vertex's UV is `((x+1)/2, (1-y)/2)`, UVs interpolate like positions, and the triangle covers the whole clip square |
| TextureUtil.ClearVolume | Assets/Scripts/Graphics/TextureUtilCompute.cs:28-37 | the requested mip is the destination; per axis the groups are the most 8-wide groups fitting the mip's extent; the mip is fully covered iff each extent is a multiple of 8, and extents below 8 get no groups |
| TextureUtil.MipExtentIsHalving | Assets/Scripts/Graphics/TextureUtilCompute.cs:33-35 | the mip extent is each axis halved `mip` times |
| SDFGeneration.PackInRange | Assets/Scripts/Graphics/SDFGenerationCompute.cs:35 | in range, shifting the count left by 24 and or-ing in the offset gives `count * 2^24 + offset` |
| SDFGeneration.PackRoundTrip | Assets/Scripts/Graphics/SDFGenerationCompute.cs:35 | the high 8 and low 24 bits decode back to count and offset iff the count is below 256 and the offset below 2^24 |
| SDFGeneration.PackCollides | Assets/Scripts/Graphics/SDFGenerationCompute.cs:35 | an offset past 2^24 spills into the count field |
| SDFGeneration.StoredMaterialID | Assets/Scripts/Graphics/SDFGenerationCompute.cs:33 | the stored id is the material id plus one, which is 0 only when the id wraps around |
| SDFGeneration.NewSDFBrush | Assets/Scripts/Graphics/SDFGenerationCompute.cs:27-38 | the record stores the type ordinal (which decodes back to the type), the shifted material id, the transform and, in range, a decodable count and offset |
| SDFGeneration.NewSDFGenerationParameters | Assets/Scripts/Graphics/SDFGenerationCompute.cs:52-70 | the brush count field is the collection's brush count, and the first three matrix rows are kept |
| SDFGeneration.MipGenerationParameters | Assets/Scripts/Graphics/SDFGenerationCompute.cs:78-87 | for mip at least 1 each axis is shifted right by `mip - 1` |
| SDFGeneration.MipZeroCollapses | Assets/Scripts/Graphics/SDFGenerationCompute.cs:80-86 | at mip 0 the shift count -1 is masked to 31, which sends every in-range extent to 0 |
| SDFGeneration.Registrations | Assets/Scripts/Graphics/SDFGenerationCompute.cs:136-139 | one generation-parameters span and then `SceneMipCount` mip spans are registered, in that order |
| SDFGeneration.OnAfterDeserialize | Assets/Scripts/Graphics/SDFGenerationCompute.cs:129-140 | the spans handed out are those of registering that list, the first at the arena's running total |
| SDFGenerator.UnitDistanceScale | Assets/Scripts/SDF/SDFGenerator.cs:11-13 | the unit distance is `2 * SDFSupremum / 255` and the scale is its reciprocal |
| SDFGenerator.TruncateTowardZero | Assets/Scripts/SDF/SDFGenerator.cs:24-25 | the cast drops the fraction toward zero for both signs |
| SDFGenerator.Quantize | Assets/Scripts/SDF/SDFGenerator.cs:23-25 | the byte is at most 255, 0 for every non-positive distance, the truncated scaled distance in range and 255 above it |
| SDFGenerator.QuantizeMonotone | Assets/Scripts/SDF/SDFGenerator.cs:23-25 | a larger distance never gives a smaller byte |
| SDFGenerator.TexelIndexDecodes | Assets/Scripts/SDF/SDFGenerator.cs:19-25 | the index `(i sizeY + j) sizeZ + k` is below the texel count and decodes back to `(i, j, k)` |
| SDFGenerator.TexelIndexCovers | Assets/Scripts/SDF/SDFGenerator.cs:19-25 | every slot below the texel count is the index of exactly one in-range point |
| SDFGenerator.FillRow | Assets/Scripts/SDF/SDFGenerator.cs:21-26 | the inner loop fills the slots of one row with the quantised samples |
| SDFGenerator.CreateSDFTexture3D | Assets/Scripts/SDF/SDFGenerator.cs:15-33 | the texture has the requested extent and format, and every slot holds the quantised sample of the point it indexes |
| SDFGenerator.QuantizeLosesSign | Assets/Scripts/SDF/SDFGenerator.cs:17-25 | a negative distance gives the same byte as 0, so the signed-normalised texture reads no inside |
| SDFGenerator.QuantizeSigned | Assets/Scripts/SDF/SDFGenerator.cs:23-25 | the corrected byte's signed-normalised level is the truncated scaled distance clamped to -127..127 |
| SDFGenerator.QuantizeSignedKeepsSign | Assets/Scripts/SDF/SDFGenerator.cs:23-25 | the corrected byte keeps the sign of every distance of at least one unit, and agrees with the as-written byte on small non-negative distances |
| SDFScene.GatheredScene | Assets/Scripts/SDF/SDFScene.cs:20-32 | the scene is empty iff it has no brushes, and holds the gathered brush layout |
| SDFScene.FixScale | Assets/Scripts/SDF/SDFScene.cs:68-78 | the scale becomes uniform with the x component; it is changed and flagged dirty iff it was not uniform |
| SDFScene.FixScaleIdempotent | Assets/Scripts/SDF/SDFScene.cs:68-78 | fixing a fixed scale changes nothing |
| SDFSceneActivation.OnDisable | Assets/Scripts/SDF/SDFScene.cs:60-66 | the instance is cleared and the pipeline's scene unloaded |
| SDFSceneActivation.OnEnable | Assets/Scripts/SDF/SDFScene.cs:50-58 | the previous instance is disabled first, so the load finds nothing loaded; the component becomes the instance, and its scene is loaded iff it is not empty |
| SDFShapes.BrushTypeOf | Assets/Scripts/SDF/SDFBrushProperty.cs:10 | an ordinal names a brush type iff it is below 3, and then that type's ordinal is it |
| SDFShapes.OrdinalRoundTrip | Assets/Scripts/SDF/SDFBrushProperty.cs:10 | a type's ordinal decodes back to the type |
| SDFShapes.GetParameterCount | Assets/Scripts/SDF/SDFShapes.cs:12-15 | the count is the struct size divided by the float size |
| SDFShapes.ShapeCountsAgree | Assets/Scripts/SDF/SDFShapes.cs:17-55 | each shape's declared parameter count is its struct's float count and its parameter list length, and its brush type tag matches its kind |
| SDFShapes.NumericalFromParameters | Assets/Scripts/SDF/SDFShapes.cs:17-28 | six floats read as a numerical shape give those floats back |
| BrushCollection.NumericalIndicesListed | Assets/Scripts/SDF/SDFBrushCollection.cs:69-75 | the numerical indices list, in increasing order, exactly the brushes whose helper reports numerical |
| BrushCollection.OffsetMonotone | Assets/Scripts/SDF/SDFBrushCollection.cs:69-80 | parameter offsets never decrease along the brush list |
| BrushCollection.SlicesOrdered | Assets/Scripts/SDF/SDFBrushCollection.cs:69-80 | an earlier brush's slice ends at or before a later brush's offset |
| BrushCollection.LayOutBrushes | Assets/Scripts/SDF/SDFBrushCollection.cs:59-81 | brush `i`'s offset is the sum of the earlier brushes' counts; the numerical indices and textures are listed; the total is the sum of all counts |
| BrushCollection.CopyParameters | Assets/Scripts/SDF/SDFBrushCollection.cs:87-102 | the parameter array has the total length and every brush's slice holds its own parameters; the scratch buffer, regrown as needed, ends holding the last brush's parameters |
| BrushCollection.CopyKeepsEarlierSlices | Assets/Scripts/SDF/SDFBrushCollection.cs:77-101 | copying brush `i` keeps every earlier brush's slice |
| BrushCollection.SlicesApart | Assets/Scripts/SDF/SDFBrushCollection.cs:77-101 | the slices of two different brushes share no index |
| BrushCollection.PatchKeepsUnlisted | Assets/Scripts/SDF/SDFBrushCollection.cs:113-120 | patching the numerical brushes keeps every other brush's slice |
| BrushCollection.PatchAsWrittenEffect | Assets/Scripts/SDF/SDFBrushCollection.cs:113-120 | as written, every non-numerical slice is kept and every numerical slice starts with the last brush's parameters copied from the scratch buffer |
| BrushCollection.PatchNumericalAsWritten | Assets/Scripts/SDF/SDFBrushCollection.cs:113-120 | the as-written atlas block, reading each offset from its brush record, has that effect |
| BrushCollection.PatchAsWrittenDropsAtlasOffset | Assets/Scripts/SDF/SDFBrushCollection.cs:118-119 | on a numerical brush followed by a sphere, the patched slice starts with the sphere's radius, not the atlas offset |
| BrushCollection.NumericalSlicePlaced | Assets/Scripts/SDF/SDFBrushCollection.cs:113-120 | after the corrected patch, the `k`-th numerical brush's slice holds its shape moved to the `k`-th atlas offset |
| BrushCollection.PatchFixedEffect | Assets/Scripts/SDF/SDFBrushCollection.cs:113-120 | the corrected patch keeps every non-numerical slice and places every numerical brush at its atlas offset |
| BrushCollection.PatchNumericalFixed | Assets/Scripts/SDF/SDFBrushCollection.cs:113-120 | the corrected atlas block writes each numerical brush's atlas offset into its own slice |
| BrushCollection.GatherBrushes | Assets/Scripts/SDF/SDFBrushCollection.cs:50-123 | as written: the layout holds and non-numerical slices hold their parameters, but every numerical slice starts with the last brush's parameters; an atlas is packed iff some brush is numerical, and otherwise the placeholder is made |
| BrushCollection.GatherBrushesFixed | Assets/Scripts/SDF/SDFBrushCollection.cs:50-123 | corrected: every slice holds its own brush's parameters, with numerical brushes moved to their atlas offsets |
| PhysicsPipeline.AllocateAll | Assets/Scripts/Physics/APhysicsPipeline.cs:53-72 | every buffer is allocated, valid, with its word count and a 4-byte stride |
| PhysicsPipeline.SeedsFit | Assets/Scripts/Physics/APhysicsPipeline.cs:85-89 | every seed write fits its buffer, whatever the solver constants |
| PhysicsPipeline.LoadPhysicsScene | Assets/Scripts/Physics/APhysicsPipeline.cs:41-104 | an unloaded pipeline ends loaded; grid levels 0 and 1 are cleared to 0, the seeds fit, and the partition clear uses the least group count covering every partition |
| PhysicsPipeline.CeilDivIsTight | Assets/Scripts/Physics/APhysicsPipeline.cs:97 | `(n + d - 1) / d` groups cover `n` items and one group fewer would not |
| PhysicsPipeline.UnloadPhysicsScene | Assets/Scripts/Physics/APhysicsPipeline.cs:106-126 | a loaded pipeline ends unloaded, without shader specs, with every buffer and grid released |
| PhysicsPipeline.Solve | Assets/Scripts/Physics/APhysicsPipeline.cs:128-234 | on a loaded pipeline, grid level 2 is cleared first, every indirect read lies inside its argument buffer, and each read of the argument buffer follows a kernel that generates it; with no scene the null specs fail |
| PhysicsPipeline.UploadCapacity | Assets/Scripts/Physics/APhysicsPipeline.cs:71 | the upload buffer holds exactly `MaxAddParticleCount` particle records |
| PhysicsPipeline.UploadFits | Assets/Scripts/Physics/APhysicsPipeline.cs:71 | `n` records fit the upload buffer iff `n` is at most 1024 |
| PhysicsPipeline.AddParticles | Assets/Scripts/Physics/APhysicsPipeline.cs:236-259 | fails iff the specs are null or the upload overflows; otherwise it uploads the batch and dispatches the least group count covering it |
| PhysicsPipeline.AddParticlesOverflowsUpload | Assets/Scripts/Physics/APhysicsPipeline.cs:238-248 | 1025 particles pass the assertion against `MaxParticleCount` and overflow the 1024-record upload |
| PhysicsPipeline.AddParticlesFixed | Assets/Scripts/Physics/APhysicsPipeline.cs:236-259 | bounded by the upload capacity, a pipeline with specs always records the upload and a covering dispatch |
| PhysicsPipeline.IndirectLayoutInside | Assets/Scripts/Physics/APhysicsPipeline.cs:143-233 | the three dispatch triples and the draw record at byte 36 lie inside the 13-word argument buffer, and the block-offset triples at bytes 0 and 12 inside theirs |
| PhysicsPipeline.SeededArgumentsDispatchNothing | Assets/Scripts/Physics/APhysicsPipeline.cs:87-89 | before any kernel runs, the seeded triples dispatch no groups and the draw record draws nothing |
| PhysicsScene.OnDisable | Assets/Scripts/Physics/APhysicsScene.cs:44-50 | the instance is cleared, and the physics scene is unloaded iff this component obtained the pipeline |
| PhysicsScene.OnEnable | Assets/Scripts/Physics/APhysicsScene.cs:21-42 | a previous instance is disabled first; under an `ARenderPipeline` the shared pipeline is obtained and loaded, and otherwise a warning is logged and no pipeline held |
| PhysicsScene.FixedUpdate | Assets/Scripts/Physics/APhysicsScene.cs:52-64 | a step is solved iff the component holds a loaded pipeline, and then the solve succeeds |
| PhysicsScene.AddTestParticles | Assets/Scripts/Physics/APhysicsScene.cs:68-87 | a disabled component adds nothing; an enabled one submits exactly 64 particles, and fails on the null pipeline outside an `ARenderPipeline` |
| PhysicsScene.EnableTwiceHandsOver | Assets/Scripts/Physics/APhysicsScene.cs:21-50 | enabling two components in turn leaves only the second enabled, holding the loaded pipeline |
| PriorityQueue.HeapRootIsMax | Assets/Scripts/Utility/PriorityQueue.cs:22-40 | in a heap no key exceeds the root's |
| PriorityQueue.Peek | Assets/Scripts/Utility/PriorityQueue.cs:40 | fails on an empty queue; otherwise returns slot 0, a greatest element |
| PriorityQueue.Swap | Assets/Scripts/Utility/PriorityQueue.cs:64-70 | the two slots are exchanged, the rest kept, and the multiset unchanged |
| PriorityQueue.SwapUp | Assets/Scripts/Utility/PriorityQueue.cs:28-36 | swapping a slot with its smaller parent moves the heap fault up to the parent |
| PriorityQueue.SiftUp | Assets/Scripts/Utility/PriorityQueue.cs:24-37 | the sift-up with parent `i/2` stops at the root and restores the heap with the same multiset |
| PriorityQueue.Enqueue | Assets/Scripts/Utility/PriorityQueue.cs:22-38 | the queue gains exactly the item, grows by one and stays a heap |
| PriorityQueue.LargestChild | Assets/Scripts/Utility/PriorityQueue.cs:49-52 | the child with the largest key, or the slot itself when it has none |
| PriorityQueue.SwapDown | Assets/Scripts/Utility/PriorityQueue.cs:49-56 | swapping a slot with its larger, larger-keyed child moves the heap fault down |
| PriorityQueue.SiftDown | Assets/Scripts/Utility/PriorityQueue.cs:46-58 | sinking a slot restores the heap with the same multiset |
| PriorityQueue.Descend | Assets/Scripts/Utility/PriorityQueue.cs:46-56 | the hole walk keeps the length and stops where the hole has at most one child |
| PriorityQueue.DequeueAsWritten | Assets/Scripts/Utility/PriorityQueue.cs:42-62 | as written, dequeuing returns slot 0 and shrinks the queue by one; fails on an empty queue |
| PriorityQueue.DequeueAsWrittenLosesLast | Assets/Scripts/Utility/PriorityQueue.cs:46-60 | dequeuing the heap 5, 4, 3, 2 as written leaves 4, 3, 3: the 2 is lost and a 3 duplicated |
| PriorityQueue.Dequeue | Assets/Scripts/Utility/PriorityQueue.cs:42-62 | corrected: returns a greatest element, and the queue keeps every other element and stays a heap |
| PriorityQueue.ToPriorityQueue | Assets/Scripts/Utility/PriorityQueue.cs:77 | the list is adopted without reordering, which is a heap when it has at most one element |
| TextureAtlas.MaxEdge | Assets/Scripts/Utility/Texture3DAtlas.cs:148 | the longest of the three edges |
| TextureAtlas.MinDimension | Assets/Scripts/Utility/Texture3DAtlas.cs:150 | the smallest of the three components |
| TextureAtlas.DisjointIffNoCommonPoint | Assets/Scripts/Utility/Texture3DAtlas.cs:99-119 | two non-empty boxes are separated on some axis iff they share no texel |
| TextureAtlas.AxisOrder | Assets/Scripts/Utility/Texture3DAtlas.cs:69-97 | after the three `Ascend` calls, `(min, mid, max)` is a permutation of the axes ordered by free space |
| TextureAtlas.SplitAsWritten | Assets/Scripts/Utility/Texture3DAtlas.cs:99-121 | as written, one chunk is cut per positive free extent, in max, mid, min axis order; each has that free extent as its size along the split axis and the texture's size there as its offset; an offset is recorded iff all three free extents are positive |
| TextureAtlas.LeadingNonZeroArePositive | Assets/Scripts/Utility/Texture3DAtlas.cs:99-121 | the sorted free axes that are non-empty come first, so the cut chunks are exactly the first `PositiveAxes` of them |
| TextureAtlas.SplitAsWrittenMisplaces | Assets/Scripts/Utility/Texture3DAtlas.cs:101-121 | as written, the first 8-texel texture is recorded at (8, 0, 0), the corner of a free chunk; a chunk cut from a chunk away from the origin reaches outside it; a texture filling its chunk records nothing |
| TextureAtlas.SplitChunk | Assets/Scripts/Utility/Texture3DAtlas.cs:99-121 | corrected, the texture's corner offset is always recorded, one chunk is cut per positive free extent, and no chunk is cut iff the texture fills the chunk |
| TextureAtlas.SplitChunkInside | Assets/Scripts/Utility/Texture3DAtlas.cs:99-119 | the placed texture and the cut chunks are inside the chunk, and the cut chunks are non-empty |
| TextureAtlas.SplitChunkSeparated | Assets/Scripts/Utility/Texture3DAtlas.cs:99-119 | the cut chunks are clear of the texture and of each other |
| TextureAtlas.SplitChunkDisjoint | Assets/Scripts/Utility/Texture3DAtlas.cs:99-119 | texture and cut chunks are non-empty, inside the chunk and pairwise disjoint |
| TextureAtlas.SplitChunkCovers | Assets/Scripts/Utility/Texture3DAtlas.cs:99-119 | every texel of the chunk is in the texture or in a cut chunk |
| TextureAtlas.InsertExtendsPermutation | Assets/Scripts/Utility/Texture3DAtlas.cs:60-63 | inserting the next index extends a permutation |
| TextureAtlas.InsertKeepsSorted | Assets/Scripts/Utility/Texture3DAtlas.cs:60-63 | inserting after the no-longer textures keeps the order sorted |
| TextureAtlas.SortByMaxEdge | Assets/Scripts/Utility/Texture3DAtlas.cs:60-63 | the order is a permutation of the texture indices, ascending by longest edge |
| TextureAtlas.TakeChunk | Assets/Scripts/Utility/Texture3DAtlas.cs:86-92 | taking a free chunk and placing a texture at its corner keeps the free chunks and placed boxes pairwise disjoint |
| TextureAtlas.AddFree | Assets/Scripts/Utility/Texture3DAtlas.cs:79 | filing a chunk clear of the others keeps the layout |
| TextureAtlas.AddPiece | Assets/Scripts/Utility/Texture3DAtlas.cs:99-119 | filing the next cut chunk keeps the layout |
| TextureAtlas.LayoutAfterPieces | Assets/Scripts/Utility/Texture3DAtlas.cs:86-119 | after taking a chunk, placing the texture and filing its cut chunks, the layout holds |
| TextureAtlas.FilePieces | Assets/Scripts/Utility/Texture3DAtlas.cs:99-119 | the queue gains exactly the cut chunks and stays a heap |
| TextureAtlas.Place | Assets/Scripts/Utility/Texture3DAtlas.cs:83-121 | fails iff the queue is empty or its top chunk is too small; otherwise the texture goes to that chunk's corner and the layout holds with its box added |
| TextureAtlas.BlitGroups | Assets/Scripts/Utility/Texture3DAtlas.cs:142 | an aligned texture is blitted with exactly size / 8 groups per axis |
| TextureAtlas.PackSize | Assets/Scripts/Utility/Texture3DAtlas.cs:124-126 | the pack size is the whole atlas, since every free chunk's offset lies inside it |
| TextureAtlas.PlacementValid | Assets/Scripts/Utility/Texture3DAtlas.cs:81-121 | the boxes placed in processing order, read back per texture, are non-empty, inside the atlas and pairwise disjoint |
| TextureAtlas.PackStep | Assets/Scripts/Utility/Texture3DAtlas.cs:81-121 | one iteration places the next texture, writes only its offset and keeps the packing invariant |
| TextureAtlas.PackLoop | Assets/Scripts/Utility/Texture3DAtlas.cs:81-122 | the textures are packed largest first into disjoint boxes inside the atlas, and only their offsets are written |
| TextureAtlas.GetAtlas | Assets/Scripts/Utility/Texture3DAtlas.cs:55-146 | no textures give null; a packed atlas is valid and blits each texture to its offset; a texture larger than the atlas makes packing fail; a single fitting texture goes to the origin |
| DebugBuffer.SignedBits | Assets/Scripts/Graphics/DebugBuffer.cs:25-29 | word 1 read as `int` is non-negative iff its top bit is clear, and agrees with the `uint` view modulo 2^32 |
| DebugBuffer.ClampedCount | Assets/Scripts/Graphics/DebugBuffer.cs:98-100 | the count is the counter word capped at `MaxDebugLogCount` |
| DebugBuffer.Reset | Assets/Scripts/Graphics/DebugBuffer.cs:81-84 | the counter becomes 0, which also reads as type `Int`; the other records are kept |
| DebugBuffer.NewDebugBuffer | Assets/Scripts/Graphics/DebugBuffer.cs:39-49 | a new buffer has the counter record zeroed and a zeroed CPU copy |
| DebugBuffer.Read | Assets/Scripts/Graphics/DebugBuffer.cs:91-94 | the CPU copy becomes the device buffer |
| DebugBuffer.ForEach | Assets/Scripts/Graphics/DebugBuffer.cs:96-123 | records 1 to the clamped count are reported in index order; the result is true iff the clamped count is positive, and a negative counter reports nothing |
| DebugBuffer.ResetThenReadIsEmpty | Assets/Scripts/Graphics/DebugBuffer.cs:81-123 | after a reset and a read, `ForEach` sees a count of 0 |

## Left out

- GPU execution: the HLSL kernels, what `DispatchCompute` and `SetBufferData` do on the
  device, and texture contents. Commands are recorded as values and device buffers are
  inputs. `PhysicsPipeline.LoadPhysicsScene` does not record the constant buffer's
  `UpdateData` or the `SetGlobalBuffer` bindings, and the two `Raw` buffers
  (`APhysicsPipeline.cs` lines 55 and 71) are modelled as structured ones, since only
  their lengths matter to the model.
- The per-camera frame in `ARenderPipeline.Render` beyond its load guard: culling,
  render passes and sub-passes, the async-compute fence and the blits. It is engine
  plumbing for queue synchronisation.
- `RayMarchingCompute`, the culling radii in the SDF generation parameters, and the
  `WorldToLocal` matrix: floating-point camera and transform maths. Matrices are passed
  through as opaque values.
- `FluidSolverCompute`: its kernel sizes and grid constants are a parameter
  (`PhysicsPipeline.SolverConstants`); float parameter blocks and kernel lookups are
  left out.
- The random values `AddTestParticles` generates: only the count of 64 is modelled.
- The `BindCBuffer` overloads: they only bind a range, and the range is
  `CBufferArena.Span.Size`.
- The reflection-based `CheckInitialization` editor check, the `AssetDatabase` import
  hook, the RenderDoc capture, the inspector glue and the other wiring-only files. A
  helper's "is numerical" answer is an input to `BrushCollection.GatherBrushes`.
- Unity engine objects: render textures, compute buffers and textures are abstract
  records. The `if (Instance)` check on a destroyed Unity object is modelled as a plain
  null check.
- Switching the render pipeline in the middle of a play session: `PhysicsScene` fixes
  whether the current pipeline is an `ARenderPipeline` for the session.
- The `Count`, `Empty`, indexer and `UnderlyingList` accessors of `PriorityQueue`: on a
  sequence they are its length, emptiness and indexing.
- PriorityQueue.ToPriorityQueue: does not model the aliasing of the caller's list,
  since the model has no shared mutable lists; the contract states the contents only.
- TextureAtlas.SortByMaxEdge: `List.Sort` is unstable, so it may order textures with
  equal longest edges differently; the model fixes one such order (index order).
- TextureAtlas.GetAtlas: the `Debug.Assert` that a texture fits its chunk becomes an
  `Err` result. Packing is modelled with the corrected split and dequeues chunks with
  the corrected `PriorityQueue.Dequeue`, so the model's offsets and chunk order are
  the corrected ones, not those of the heap as written.
- EmitterRegistry.GetEmitterInstances: the source hands every caller the one shared
  `_emitterInstancesList`, which the next call clears and refills and `OnEnable` and
  `OnDisable` edit, so a caller's earlier result changes under it. The model returns a
  sequence, a snapshot; the registry's `instancesList` records what the shared list
  holds, but a caller's copy is not updated.
- CubeEmitter.AddParticles: `_particleCount += count` is 32-bit `int` arithmetic that
  can wrap; the model adds unbounded integers.
- FluidEmitterBase.PropertyByteCount: `sizeof(T) + ParticleCount * sizeof(U)` is
  32-bit `int` arithmetic that can wrap for large counts; the model does not wrap.
- EmitterBatching.ReserveEmitter: the builder's `int` counters (`_emitterDispatchCount`,
  `_groupParticleCount`, `_partitionCount`, `_parameterByteCount`) can wrap in 32 bits;
  the model's counters are unbounded, and `EmitterBatching.Reserve` inherits this.
- RenderPipeline.LoadScene: the material cell count `matVolumeSize.x * matVolumeSize.y *
  matVolumeSize.z` (`ARenderPipeline.cs` lines 111, 189 and 210) is an `int` product
  that can wrap; the model's `Volume()` does not, and `LoadableSize` bounds each
  extent but not the product. `RenderPipeline.GenerateVolumeMips` and
  `RenderPipeline.IndirectBufferSeeded` share this. Its mip chain also takes the
  corrected per-level parameters described under `RenderPipeline.GenerateVolumeMips`.
- RenderPipeline.GenerateVolumeMips: the per-level parameters are the corrected ones,
  level `i + 1` using `MipGenerationParameters(size, i + 1)`, not those built from the
  argument offset at `ARenderPipeline.cs` line 216; the as-written reading is
  `RenderPipeline.MipParametersAsWrittenWrong`.
- SDFGenerator.CreateSDFTexture3D: the `int` product `sizeX * sizeY * sizeZ` that sizes
  the byte array (`SDFGenerator.cs` line 18) can wrap in 32 bits; the model's product
  is unbounded.
- CBufferArena.SetCBuffer: the source copies through `tmp.Reinterpret<byte>()` on a
  one-element `NativeArray<T>`. That overload keeps the element count and needs
  `sizeof(T) == 1`, so as written the call either throws (collection checks on) or
  hands `SetBufferData` a 1-byte array that a count of `Size >= 16` overruns: it never
  succeeds. The model takes the reading in which the array holds the struct's
  `sizeof(T)` bytes, so it still fails for structs under 16 bytes but succeeds for
  larger ones whose window fits.
- SDFGenerator.Quantize: the `(int)` cast of a float outside the `int` range is
  unspecified in C# (x86 gives `int.MinValue`, which clamps to 0); the model truncates
  the real toward zero with no range limit, so such a distance gives 255.
- CubeEmitter.CubePropertyByteCount: the per-particle type `NullFluidEmitterParameter`
  is not declared anywhere in this revision; the model takes it to be an empty struct
  of `sizeof` 1, like `NullFluidEmitterProperty`.
- Floating point: distances, scales and velocities are reals, so rounding is not
  modelled. Only the explicit truncating cast and the byte clamp in
  `SDFGenerator.Quantize` are.
- PhysicsPipeline.Solve: the revisions disagree on its arguments (`deltaTime` and the
  particle count to add). The model records the stages only, not the values pushed
  into the frame constant buffer.

## Findings

| source | as written | input that shows it | evidently intended | confidence | as-written member | corrected member |
|---|---|---|---|---|---|---|
| Assets/Scripts/Utility/PriorityQueue.cs:46-60 | the hole left by the root moves down to where it has at most one child, but `RemoveAt(Count - 1)` always drops the last slot | the heap 5, 4, 3, 2 dequeues to 4, 3, 3 | the queue loses exactly the returned root and stays a heap | high, not executed | PriorityQueue.DequeueAsWritten, PriorityQueue.DequeueAsWrittenLosesLast | PriorityQueue.Dequeue, TextureAtlas.GetAtlas |
| Assets/Scripts/Utility/Texture3DAtlas.cs:101-121 | cut chunks set the split axis offset to the texture size rather than chunk offset plus size; the recorded offset is the last cut chunk's and is written only when all three free extents are positive | the first 8-texel cube is recorded at (8, 0, 0) instead of the origin | textures go to the chunk's corner, cut chunks lie past the texture, and every offset is written | high, not executed | TextureAtlas.SplitAsWritten, TextureAtlas.SplitAsWrittenMisplaces | TextureAtlas.SplitChunk, TextureAtlas.SplitChunkDisjoint, TextureAtlas.GetAtlas |
| Assets/Scripts/SDF/SDFGenerator.cs:17-25 | the byte is clamped to 0..255 while the texture format is R8_SNorm | a distance of minus one unit stores 0, the same as the surface | negative distances keep their sign in the signed-normalised texture | medium, not executed | SDFGenerator.QuantizeLosesSign | SDFGenerator.QuantizeSigned, SDFGenerator.QuantizeSignedKeepsSign |
| Assets/Scripts/Physics/APhysicsPipeline.cs:238-248 | the assertion bounds the count by `MaxParticleCount`, but the upload buffer holds 1024 records | 1025 particles pass the assertion and overflow the upload | the count is bounded by `MaxAddParticleCount` | high, not executed | PhysicsPipeline.AddParticles, PhysicsPipeline.AddParticlesOverflowsUpload | PhysicsPipeline.AddParticlesFixed |
| Assets/Scripts/Physics/FluidEmitterCompute.cs:122-137 | each emitter's final record is written at the running dispatch count, which only advances by the number of emitters after the loop, so later emitters overwrite it; `ParamterOffset` receives the byte count rather than the running offset | two one-particle emitters of 4 and 8 bytes leave one record, with offset 8 where the second emitter's bytes start at 4, and an empty slot | one record per emitter at a fresh index, pointing at its own bytes | high, not executed | EmitterBatching.AddEmittersOverwritesRecords | EmitterBatching.AddEmittersFixed, EmitterBatching.BuildFixedPlacesEveryEmitter |
| Assets/Scripts/SDF/SDFBrushCollection.cs:113-120 | the patch copies from the scratch buffer, which holds the last brush's parameters, and assigns `Offset` on a local copy of the shape | a numerical brush followed by a sphere gets the sphere's radius where the atlas offset belongs | each numerical brush's slice starts with its atlas offset and keeps its size | high, not executed | BrushCollection.PatchAsWrittenEffect, BrushCollection.PatchAsWrittenDropsAtlasOffset | BrushCollection.PatchFixedEffect, BrushCollection.GatherBrushesFixed |
| Assets/Scripts/Physics/FluidEmitterComponent.cs:15-46 | the shared list is only created in `GetEmitterInstances`, so `OnEnable` before the first query dereferences null | enable one component in a fresh registry | enabling registers the emitter whatever the call order | medium, not executed | EmitterRegistry.EnableBeforeFirstQueryFails | EmitterRegistry.OnEnableFixed, EmitterRegistry.EnableThenDisableRestores |
| Assets/Scripts/Graphics/AShaderSpecifications.cs:32-36 | `SetCBuffer` copies `Size` bytes, which is at least 16, out of the reinterpreted one-element array, which holds at most `sizeof(T)` bytes (only one byte under the no-argument `Reinterpret`) | a 12-byte struct: 16 bytes are read from a 12-byte array | only the struct's own bytes are copied, as `SubUpdateCBuffer` does | medium, not executed | CBufferArena.SetCBuffer, CBufferArena.SetCBufferRejectsSmallStructs | CBufferArena.SetCBufferFixed |
| Assets/Scripts/Physics/FluidEmitterBase.cs:48-54 | the cube's per-particle type is an empty struct, whose `sizeof` is 1, so the constructor's `sizeof(TParticleProperty) % 4 == 0` assertion fails and `PropertyByteCount` counts one byte per particle | a cube with one particle reports 49 bytes and trips the assertion | the empty per-particle marker contributes no bytes, so a cube reports its 48-byte record | medium, not executed | CubeEmitter.CubePropertyByteCount, CubeEmitter.CubeLayoutFailsConstructorAssert | CubeEmitter.CubePropertyByteCountIntended |
| Assets/Scripts/Graphics/ARenderPipeline.cs:214-217 | the mip parameters are built from the argument buffer offset instead of the mip level | the first level gets offset 0, which is mip 0 and gives zero extents; with at least 8 material cells the second level's offset fails the mip range assertion | level `i + 1` uses `MipGenerationParameters(size, i + 1)` | medium, not executed | RenderPipeline.MipParametersAsWrittenWrong | RenderPipeline.GenerateVolumeMips |
