/** `APhysicsPipeline` (APhysicsPipeline.cs): the fluid solver's buffers and grids, their
    word counts and seeds, the indirect-argument layout the solver's dispatches read, the
    order of the `Solve` stages, and the load/unload state. Kernels are named, not run;
    commands are returned as records. The solver's compile-time constants live in a
    revision of `FluidSolverCompute` that is not part of this model, so they are a
    parameter. */
module PhysicsPipeline {
  import opened Wrappers
  import opened IntMath
  import opened Vectors
  import RU = RenderUtilities
  import TextureUtil
  import RP = RenderPipeline

  const MaxAddParticleCount: nat := 1024

  /** Bytes per buffer word. */
  const WordSize: nat := 4

  /** Three dispatch triples followed by one four-word draw record. */
  const IndirectArgsWordCount: nat := 3 * 3 + 4

  /** The constants of `FluidSolverCompute` the pipeline reads. */
  datatype SolverConstants = SolverConstants(
    maxParticleCount: nat,
    blockCountLevel0: nat,
    prefixSumPartitionCount: nat,
    clearPartitionSumsKernelSize: nat,
    addParticlesKernelSize: nat,
    particleToAddSize: nat,
    gridSizeLevel0: Int3, gridSizeLevel1: Int3, gridSizeLevel2: Int3)

  /** Positive kernel sizes, a `ParticleToAdd` of whole words, and non-negative grids. */
  predicate ConstantsValid(c: SolverConstants)
  {
    && c.clearPartitionSumsKernelSize > 0 && c.addParticlesKernelSize > 0
    && c.particleToAddSize > 0 && c.particleToAddSize % WordSize == 0
    && c.gridSizeLevel0.NonNegative() && c.gridSizeLevel1.NonNegative() && c.gridSizeLevel2.NonNegative()
  }

  /** The pipeline's compute buffers. */
  datatype BufferId = Positions | Properties | PropertiesPool | BlockParticleOffsets | PartitionSums
                    | IndirectArgs | ParticlesToAdd

  /** The word count `LoadPhysicsScene` allocates for each buffer. */
  function WordCount(c: SolverConstants, id: BufferId): nat
  {
    match id
    case Positions => 4 + 2 * 4 * c.maxParticleCount
    case Properties => c.maxParticleCount * 8
    case PropertiesPool => 1 + c.maxParticleCount
    case BlockParticleOffsets => 8 + c.blockCountLevel0 * 8
    case PartitionSums => 1 + 2 * c.prefixSumPartitionCount
    case IndirectArgs => IndirectArgsWordCount
    case ParticlesToAdd => MaxAddParticleCount * (c.particleToAddSize / WordSize)
  }

  /** The buffers and grid textures a loaded scene owns. */
  datatype Resources = Resources(buffers: map<BufferId, RU.ComputeBuffer>,
                                 grid0: RU.VolumeRT, grid1: RU.VolumeRT, grid2: RU.VolumeRT)

  /** `IsSceneLoaded`, whether `_shaderSpecs` is set, and the resources of the last load
      (kept, released, after an unload). */
  datatype Pipeline = Pipeline(isSceneLoaded: bool, hasShaderSpecs: bool, resources: Option<Resources>)

  const NewPipeline := Pipeline(false, false, None)

  /** Every buffer is present with its word count and a 4-byte stride. */
  predicate Allocated(c: SolverConstants, r: Resources)
  {
    forall id: BufferId :: id in r.buffers && r.buffers[id].count == WordCount(c, id) && r.buffers[id].stride == WordSize
  }

  /** The shader specs are set exactly while a scene is loaded, and a loaded pipeline has
      live, fully allocated resources. */
  predicate Valid(c: SolverConstants, p: Pipeline)
  {
    && (p.hasShaderSpecs <==> p.isSceneLoaded)
    && (p.isSceneLoaded ==>
          && p.resources.Some? && Allocated(c, p.resources.value)
          && (forall id: BufferId :: p.resources.value.buffers[id].valid))
  }

  /** The seeds `LoadPhysicsScene` writes with `SetBufferData`. */
  const PositionsSeed: seq<nat> := [0, 0]
  const PoolSeed: seq<nat> := [0]
  const BlockOffsetsSeed: seq<nat> := [0, 1, 1, 0, 1, 1]
  const PartitionSumsSeed: seq<nat> := [0]
  const IndirectArgsSeed: seq<nat> := [0, 1, 1, 0, 1, 1, 0, 1, 1, 1, 0, 0, 0]

  /** What a load records: the two grid clears, the seed writes per buffer, and the group
      count of the initial `ClearPartitionSums` dispatch. */
  datatype LoadCommands = LoadCommands(clears: seq<TextureUtil.ClearCommand>,
                                       seeds: seq<(BufferId, RP.BufferWrite)>,
                                       clearPartitionGroups: nat)

  function Allocate(c: SolverConstants, id: BufferId): RU.ComputeBuffer
  {
    var t := if id == BlockParticleOffsets || id == IndirectArgs then RU.IndirectArguments else RU.StructuredBuffer;
    var m := if id == BlockParticleOffsets || id == ParticlesToAdd then RU.Dynamic else RU.Immutable;
    RU.NewComputeBuffer(WordCount(c, id), WordSize, t, m)
  }

  /** Every buffer, allocated at its word count. */
  function AllocateAll(c: SolverConstants): (m: map<BufferId, RU.ComputeBuffer>)
    ensures forall id: BufferId :: id in m && m[id].count == WordCount(c, id) && m[id].stride == WordSize
    ensures forall id: BufferId :: m[id].valid
  {
    map id: BufferId | true :: Allocate(c, id)
  }

  /** The seed writes, in the order `LoadPhysicsScene` issues them. */
  function Seeds(): seq<(BufferId, RP.BufferWrite)>
  {
    [(Positions, RP.BufferWrite(0, PositionsSeed)), (PropertiesPool, RP.BufferWrite(0, PoolSeed)),
     (BlockParticleOffsets, RP.BufferWrite(0, BlockOffsetsSeed)),
     (PartitionSums, RP.BufferWrite(0, PartitionSumsSeed)),
     (IndirectArgs, RP.BufferWrite(0, IndirectArgsSeed))]
  }

  /** Every seed fits the buffer it is written to, whatever the constants. */
  lemma SeedsFit(c: SolverConstants)
    ensures forall s :: s in Seeds() ==> RP.WriteInside(AllocateAll(c)[s.0], s.1)
  {
    var m := AllocateAll(c);
    assert RP.WriteInside(m[Positions], RP.BufferWrite(0, PositionsSeed));
    assert RP.WriteInside(m[PropertiesPool], RP.BufferWrite(0, PoolSeed));
    assert RP.WriteInside(m[BlockParticleOffsets], RP.BufferWrite(0, BlockOffsetsSeed));
    assert RP.WriteInside(m[PartitionSums], RP.BufferWrite(0, PartitionSumsSeed));
    assert RP.WriteInside(m[IndirectArgs], RP.BufferWrite(0, IndirectArgsSeed));
  }

  /** `LoadPhysicsScene(cmd, scene)`, which asserts no scene is loaded: every buffer is
      allocated at its word count, grids 0 and 1 are cleared (grid 2 is cleared by every
      `Solve`), the seeds are written at word 0 of their buffers, and the partition sums
      are cleared with the least number of groups that covers every partition. */
  function LoadPhysicsScene(p: Pipeline, c: SolverConstants): (r: (Pipeline, LoadCommands))
    requires ConstantsValid(c) && !p.isSceneLoaded
    ensures r.0.isSceneLoaded && Valid(c, r.0)
    ensures |r.1.clears| == 2
    ensures r.1.clears[0].destination == r.0.resources.value.grid0 && r.1.clears[0].value == 0.0
    ensures r.1.clears[1].destination == r.0.resources.value.grid1 && r.1.clears[1].value == 0.0
    ensures forall s :: s in r.1.seeds ==> RP.WriteInside(r.0.resources.value.buffers[s.0], s.1)
    ensures r.1.clearPartitionGroups * c.clearPartitionSumsKernelSize >= c.prefixSumPartitionCount
    ensures (r.1.clearPartitionGroups - 1) * c.clearPartitionSumsKernelSize < c.prefixSumPartitionCount
            || r.1.clearPartitionGroups == 0
  {
    var buffers := AllocateAll(c);
    var grid0 := RU.CreateRWVolumeRT(RU.OtherFormat(0), c.gridSizeLevel0);
    var grid1 := RU.CreateRWVolumeRT(RU.OtherFormat(1), c.gridSizeLevel1);
    var grid2 := RU.CreateRWVolumeRT(RU.OtherFormat(1), c.gridSizeLevel2);
    var seeds := Seeds();
    SeedsFit(c);
    var groups := CeilDiv(c.prefixSumPartitionCount, c.clearPartitionSumsKernelSize);
    CeilDivIsTight(c.prefixSumPartitionCount, c.clearPartitionSumsKernelSize);
    (Pipeline(true, true, Some(Resources(buffers, grid0, grid1, grid2))),
     LoadCommands([TextureUtil.ClearVolume(grid0, 0.0), TextureUtil.ClearVolume(grid1, 0.0)], seeds, groups))
  }

  /** `CeilDiv(n, d)` groups cover `n` items and one group fewer would not. */
  lemma CeilDivIsTight(n: nat, d: nat)
    requires d > 0
    ensures CeilDiv(n, d) * d >= n
    ensures CeilDiv(n, d) == 0 || (CeilDiv(n, d) - 1) * d < n
  {
    CeilDivIsLeastCover(n, d);
    var q := CeilDiv(n, d);
    if q > 0 {
      var g: nat := q - 1;
      assert !(g >= q);
    }
  }

  /** `UnloadPhysicsScene()`, which asserts a scene is loaded: the shader specs are
      dropped, every buffer and grid is released, and the pipeline is unloaded. */
  function UnloadPhysicsScene(p: Pipeline, c: SolverConstants): (r: Pipeline)
    requires Valid(c, p) && p.isSceneLoaded
    ensures !r.isSceneLoaded && !r.hasShaderSpecs && Valid(c, r)
    ensures r.resources.Some? && forall id: BufferId :: id in r.resources.value.buffers && !r.resources.value.buffers[id].valid
    ensures !r.resources.value.grid0.created && !r.resources.value.grid1.created && !r.resources.value.grid2.created
  {
    var res := p.resources.value;
    var released := map id: BufferId | true :: RU.ReleaseBuffer(res.buffers[id]);
    Pipeline(false, false, Some(Resources(released, RU.ReleaseVolume(res.grid0), RU.ReleaseVolume(res.grid1),
                                          RU.ReleaseVolume(res.grid2))))
  }

  // ---- Solve ----

  datatype Kernel =
    | ClearFluidGridLevel0 | ClearFluidGridLevel1 | GenerateIndirectArgs0 | ClearPartitionSums
    | GenerateParticleHistogram | GenerateIndirectArgs1 | GenerateParticleOffsets | SortParticles
    | GenerateIndirectArgs2 | ParticleToGrid0 | ParticleToGrid1 | SolveGridLevel0 | SolveGridLevel1
    | GridToParticle

  predicate GeneratesIndirectArgs(k: Kernel)
  {
    k == GenerateIndirectArgs0 || k == GenerateIndirectArgs1 || k == GenerateIndirectArgs2
  }

  /** One recorded step of `Solve`: the level-2 grid clear, a dispatch with groups given by
      the CPU, or a dispatch whose groups are read from a buffer at a byte offset. */
  datatype Stage =
    | ClearGrid(clear: TextureUtil.ClearCommand)
    | Direct(kernel: Kernel, groups: Int3)
    | Indirect(kernel: Kernel, source: BufferId, byteOffset: nat)

  /** A dispatch reading its three group-count words from `source` at `byteOffset`
      stays inside the buffer and starts on a word. */
  predicate ArgumentsInside(c: SolverConstants, source: BufferId, byteOffset: nat, words: nat)
  {
    byteOffset % WordSize == 0 && byteOffset / WordSize + words <= WordCount(c, source)
  }

  /** The stages `Solve(cmd, deltaTime, count)` records, in order. */
  function SolveStages(grid2: RU.VolumeRT): seq<Stage>
  {
    [ ClearGrid(TextureUtil.ClearVolume(grid2, 0.0)),
      Indirect(ClearFluidGridLevel0, BlockParticleOffsets, 0),
      Indirect(ClearFluidGridLevel1, BlockParticleOffsets, 12),
      Direct(GenerateIndirectArgs0, Int3(1, 1, 1)),
      Indirect(ClearPartitionSums, IndirectArgs, 24),
      Indirect(GenerateParticleHistogram, IndirectArgs, 0),
      Direct(GenerateIndirectArgs1, Int3(1, 1, 1)),
      Indirect(GenerateParticleOffsets, IndirectArgs, 0),
      Indirect(SortParticles, IndirectArgs, 12),
      Direct(GenerateIndirectArgs2, Int3(1, 1, 1)),
      Indirect(ParticleToGrid0, BlockParticleOffsets, 0),
      Indirect(ParticleToGrid1, BlockParticleOffsets, 0),
      Indirect(SolveGridLevel0, BlockParticleOffsets, 0),
      Indirect(SolveGridLevel1, BlockParticleOffsets, 12),
      Indirect(GridToParticle, BlockParticleOffsets, 0) ]
  }

  /** Every indirect dispatch reads a whole triple inside its argument buffer. */
  predicate ReadsInside(c: SolverConstants, stages: seq<Stage>)
  {
    forall i :: 0 <= i < |stages| && stages[i].Indirect? ==>
      ArgumentsInside(c, stages[i].source, stages[i].byteOffset, 3)
  }

  /** Every dispatch that reads `_indirectArgsBuffer` comes after some
      `GenerateIndirectArgs` kernel of the same step. */
  predicate ArgsGeneratedBeforeRead(stages: seq<Stage>)
  {
    forall i :: 0 <= i < |stages| && stages[i].Indirect? && stages[i].source == IndirectArgs ==>
      exists j :: 0 <= j < i && stages[j].Direct? && GeneratesIndirectArgs(stages[j].kernel)
  }

  /** The error a call on an unloaded pipeline raises: `_shaderSpecs` is null. */
  datatype PipelineError = NullShaderSpecs | UploadOverflow

  /** `Solve(cmd, deltaTime, count)`. Without shader specs (before the first load or after
      an unload) the first line dereferences null. Otherwise the level-2 grid is cleared
      first, every indirect dispatch reads a triple inside its buffer, and every read of
      `_indirectArgsBuffer` follows a kernel that generates it. */
  function Solve(p: Pipeline, c: SolverConstants): (r: Result<seq<Stage>, PipelineError>)
    requires Valid(c, p)
    ensures r.Err? <==> !p.isSceneLoaded
    ensures r.Ok? ==>
      && |r.value| == 15
      && r.value[0] == ClearGrid(TextureUtil.ClearVolume(p.resources.value.grid2, 0.0))
      && (forall i :: 1 <= i < |r.value| ==> !r.value[i].ClearGrid?)
    ensures r.Ok? ==> ReadsInside(c, r.value) && ArgsGeneratedBeforeRead(r.value)
  {
    if !p.hasShaderSpecs then Err(NullShaderSpecs)
    else
      var stages := SolveStages(p.resources.value.grid2);
      assert stages[3].Direct? && GeneratesIndirectArgs(stages[3].kernel);
      Ok(stages)
  }

  // ---- AddParticles and the debug draw ----

  /** What `AddParticles(cmd, particles, mass)` records: the particle count pushed as a
      parameter, the records uploaded, and the `AddParticles` groups dispatched. */
  datatype AddCommands = AddCommands(count: nat, uploadBytes: nat, groups: nat)

  /** The upload buffer holds `MaxAddParticleCount` records. */
  lemma UploadCapacity(c: SolverConstants)
    requires ConstantsValid(c)
    ensures WordCount(c, ParticlesToAdd) * WordSize == MaxAddParticleCount * c.particleToAddSize
  {
    assert (c.particleToAddSize / WordSize) * WordSize == c.particleToAddSize;
  }

  /** `n` records fit the upload buffer exactly when `n <= MaxAddParticleCount`. */
  lemma UploadFits(c: SolverConstants, n: nat)
    requires ConstantsValid(c)
    ensures n * c.particleToAddSize <= WordCount(c, ParticlesToAdd) * WordSize <==> n <= MaxAddParticleCount
  {
    UploadCapacity(c);
    if n > MaxAddParticleCount {
      assert n * c.particleToAddSize >= (MaxAddParticleCount + 1) * c.particleToAddSize;
    } else {
      assert n * c.particleToAddSize <= MaxAddParticleCount * c.particleToAddSize;
    }
  }

  /** `AddParticles` as written: it asserts the count is at most `MaxParticleCount`, reads
      `_shaderSpecs` (null when unloaded), uploads the particles into a buffer sized for
      `MaxAddParticleCount` records, which fails when they do not fit, and dispatches the
      least number of groups whose threads cover every particle. */
  function AddParticles(p: Pipeline, c: SolverConstants, count: nat): (r: Result<AddCommands, PipelineError>)
    requires ConstantsValid(c) && Valid(c, p)
    requires count <= c.maxParticleCount
    ensures r.Err? <==> !p.hasShaderSpecs || count > MaxAddParticleCount
    ensures !p.hasShaderSpecs ==> r == Err(NullShaderSpecs)
    ensures r.Ok? ==>
      && r.value.count == count && r.value.uploadBytes == count * c.particleToAddSize
      && r.value.groups * c.addParticlesKernelSize >= count
      && forall g: nat :: g * c.addParticlesKernelSize >= count ==> g >= r.value.groups
  {
    if !p.hasShaderSpecs then Err(NullShaderSpecs)
    else if count * c.particleToAddSize > WordCount(c, ParticlesToAdd) * WordSize then
      UploadFits(c, count);
      Err(UploadOverflow)
    else
      UploadFits(c, count);
      CeilDivIsLeastCover(count, c.addParticlesKernelSize);
      Ok(AddCommands(count, count * c.particleToAddSize, CeilDiv(count, c.addParticlesKernelSize)))
  }

  /** With the `MaxParticleCount` of the solver revision in this repository (65536), a
      batch of 1025 particles passes the count assertion and still overflows the upload
      buffer. */
  lemma AddParticlesOverflowsUpload(c: SolverConstants, p: Pipeline)
    requires ConstantsValid(c) && c.maxParticleCount == 65536
    requires Valid(c, p) && p.isSceneLoaded
    ensures 1025 <= c.maxParticleCount && AddParticles(p, c, 1025) == Err(UploadOverflow)
  {
  }

  /** `AddParticles` with the assertion evidently intended: the count is bounded by what
      the upload buffer holds, so a loaded pipeline always records the upload. */
  function AddParticlesFixed(p: Pipeline, c: SolverConstants, count: nat): (r: Result<AddCommands, PipelineError>)
    requires ConstantsValid(c) && Valid(c, p)
    requires count <= c.maxParticleCount && count <= MaxAddParticleCount
    ensures r.Err? <==> !p.hasShaderSpecs
    ensures r.Ok? ==>
      && r.value.count == count
      && r.value.uploadBytes <= WordCount(c, ParticlesToAdd) * WordSize
      && r.value.groups * c.addParticlesKernelSize >= count
      && forall g: nat :: g * c.addParticlesKernelSize >= count ==> g >= r.value.groups
  {
    UploadFits(c, count);
    AddParticles(p, c, count)
  }

  /** `RenderDebugParticles` draws from `_indirectArgsBuffer` at byte 36, reading a
      four-word draw record. */
  const DrawArgsByteOffset: nat := 36

  /** The draw record and all three dispatch triples of the 13-word argument buffer lie
      inside it, and the block-offset triples read at bytes 0 and 12 lie inside theirs. */
  lemma IndirectLayoutInside(c: SolverConstants)
    ensures ArgumentsInside(c, IndirectArgs, DrawArgsByteOffset, 4)
    ensures forall o :: o in {0, 12, 24} ==> ArgumentsInside(c, IndirectArgs, o, 3)
    ensures forall o :: o in {0, 12} ==> ArgumentsInside(c, BlockParticleOffsets, o, 3)
    ensures DrawArgsByteOffset / WordSize + 4 == WordCount(c, IndirectArgs)
  {
  }

  /** Before any kernel writes them, the seeded triples read at bytes 0, 12 and 24 (and
      the block-offset triples at bytes 0 and 12) dispatch zero groups along x and one
      along y and z, and the draw record asks for one vertex in zero instances. */
  lemma SeededArgumentsDispatchNothing()
    ensures forall o :: o in {0, 12, 24} ==>
      && RP.WordAt([RP.BufferWrite(0, IndirectArgsSeed)], o / 4) == Some(0)
      && RP.WordAt([RP.BufferWrite(0, IndirectArgsSeed)], o / 4 + 1) == Some(1)
      && RP.WordAt([RP.BufferWrite(0, IndirectArgsSeed)], o / 4 + 2) == Some(1)
    ensures forall o :: o in {0, 12} ==>
      && RP.WordAt([RP.BufferWrite(0, BlockOffsetsSeed)], o / 4) == Some(0)
      && RP.WordAt([RP.BufferWrite(0, BlockOffsetsSeed)], o / 4 + 1) == Some(1)
      && RP.WordAt([RP.BufferWrite(0, BlockOffsetsSeed)], o / 4 + 2) == Some(1)
    ensures IndirectArgsSeed[DrawArgsByteOffset / 4..] == [1, 0, 0, 0]
  {
  }
}
