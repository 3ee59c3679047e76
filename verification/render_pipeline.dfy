/** `ARenderPipeline` (ARenderPipeline.cs): loading a scene into the SDF volumes, the
    indirect-argument buffers the generation kernels dispatch from, the mip-generation
    segment layout, and the load/unload state. GPU commands are returned as records; the
    kernels themselves, the camera loop of `Render` and the shader bindings are not part
    of this model. */
module RenderPipeline {
  import opened Wrappers
  import opened IntMath
  import opened Vectors
  import RU = RenderUtilities
  import TextureUtil
  import SDFGeneration
  import SDFScene
  import BrushCollection
  import SDFShapes

  // ---- indirect-argument and append buffers ----

  const UIntSize: nat := 4

  /** The words `InitializeIndirectBuffer` writes: a zero counter, then the thread-group
      arguments (1024, 0, 1). */
  const IndirectSeed: seq<nat> := [0, 1024, 0, 1]

  /** `GetIndirectBufferSize(count)`: `count` entries after a four-word header. */
  function GetIndirectBufferSize(count: int): int
  {
    count + 4
  }

  /** A `SetBufferData` of `words` at word `offset`. */
  datatype BufferWrite = BufferWrite(offset: int, words: seq<nat>)

  /** A buffer of 32-bit words with the writes recorded into it, oldest first. */
  datatype WordBuffer = WordBuffer(buffer: RU.ComputeBuffer, writes: seq<BufferWrite>)

  predicate WriteInside(b: RU.ComputeBuffer, w: BufferWrite)
  {
    0 <= w.offset && w.offset + |w.words| <= b.count
  }

  /** The value word `i` holds after `writes`: the one from the latest write covering it. */
  function WordAt(writes: seq<BufferWrite>, i: int): Option<nat>
  {
    if |writes| == 0 then None
    else
      var w := writes[|writes| - 1];
      if w.offset <= i < w.offset + |w.words| then Some(w.words[i - w.offset])
      else WordAt(writes[..|writes| - 1], i)
  }

  /** `InitializeIndirectBuffer(cmd, buffer, offset)`. */
  function InitializeIndirectBuffer(offset: int): BufferWrite
  {
    BufferWrite(offset, IndirectSeed)
  }

  /** `GetIndirectBuffer(cmd, count)`: a word buffer of `GetIndirectBufferSize(count)`
      words, initialised at word 0. */
  function GetIndirectBuffer(count: int): WordBuffer
  {
    WordBuffer(RU.NewComputeBuffer(GetIndirectBufferSize(count), UIntSize, RU.IndirectArguments, RU.Immutable),
               [InitializeIndirectBuffer(0)])
  }

  /** `GetAppendBuffer(cmd, count)`: `count + 1` words, the first seeded to 1. */
  function GetAppendBuffer(count: int): WordBuffer
  {
    WordBuffer(RU.NewComputeBuffer(count + 1, UIntSize, RU.StructuredBuffer, RU.Immutable), [BufferWrite(0, [1])])
  }

  /** A recorded `DispatchCompute` that takes its thread groups from `buffer` at
      `argsByteOffset`. */
  datatype IndirectDispatch = IndirectDispatch(buffer: RU.ComputeBuffer, argsByteOffset: nat)

  /** `DispatchIndirect(cmd, shader, kernel, id, buffer, offset)`: the arguments start at
      byte `(offset + 1) * sizeof(uint)`. */
  function DispatchIndirect(buffer: RU.ComputeBuffer, offset: nat := 0): IndirectDispatch
  {
    IndirectDispatch(buffer, (offset + 1) * UIntSize)
  }

  /** The three argument words an indirect dispatch reads. */
  function ArgumentWords(d: IndirectDispatch): seq<int>
  {
    var first := d.argsByteOffset / UIntSize;
    [first, first + 1, first + 2]
  }

  /** A dispatch at header offset `offset` reads words `offset + 1 .. offset + 3`, all in
      the four-word header at `offset` and therefore inside any segment of
      `GetIndirectBufferSize(n)` words starting there. */
  lemma DispatchReadsHeader(buffer: RU.ComputeBuffer, offset: nat, n: nat)
    ensures forall k :: 0 <= k < 3 ==>
      ArgumentWords(DispatchIndirect(buffer, offset))[k] == offset + 1 + k
    ensures forall k :: 0 <= k < 3 ==>
      offset < ArgumentWords(DispatchIndirect(buffer, offset))[k] < offset + GetIndirectBufferSize(n)
  {
    DivExact(offset + 1, 0, UIntSize);
  }

  /** A fresh indirect buffer of `count >= 0` entries holds its seed inside it, and a
      dispatch from it at offset 0 reads the thread-group arguments (1024, 0, 1). */
  lemma IndirectBufferSeeded(count: nat)
    ensures var b := GetIndirectBuffer(count);
      && b.buffer.count == count + 4 && b.buffer.stride == UIntSize
      && (forall w :: w in b.writes ==> WriteInside(b.buffer, w))
      && (forall k :: 0 <= k < 3 ==>
            WordAt(b.writes, ArgumentWords(DispatchIndirect(b.buffer))[k]) == Some(IndirectSeed[k + 1]))
  {
    var b := GetIndirectBuffer(count);
    DispatchReadsHeader(b.buffer, 0, count);
  }

  /** A fresh append buffer for `count` entries has its counter word set to 1 and room
      for `count` entries after it. */
  lemma AppendBufferSeeded(count: nat)
    ensures var b := GetAppendBuffer(count);
      && b.buffer.count - 1 == count && b.buffer.stride == UIntSize
      && WordAt(b.writes, 0) == Some(1)
      && forall i :: 1 <= i <= count ==> WordAt(b.writes, i).None?
  {
  }

  // ---- the mip-generation segment layout ----

  /** The cell count of material mip `n`: `g` divided by 8, `n` times. */
  function LevelCount(g: nat, n: nat): nat
  {
    if n == 0 then g else LevelCount(g, n - 1) / 8
  }

  /** Where the segment of level `n` starts: the segments of levels `1..n` (each
      `GetIndirectBufferSize` of its level's cell count) laid back to back. */
  function SegmentStart(g: nat, n: nat): nat
  {
    if n == 0 then 0 else SegmentStart(g, n - 1) + GetIndirectBufferSize(LevelCount(g, n))
  }

  function Pow8(n: nat): nat
  {
    if n == 0 then 1 else 8 * Pow8(n - 1)
  }

  lemma {:induction false} Pow8IsPow2(n: nat)
    ensures Pow8(n) == Pow2(3 * n)
  {
    if n > 0 {
      Pow8IsPow2(n - 1);
      Pow2Add(3 * (n - 1), 3);
      assert Pow2(3) == 8;
      assert 3 * n == 3 * (n - 1) + 3;
    }
  }

  /** The word count `GenerateVolumeMips` allocates for `mipCount` levels over `g`
      material cells: `(a - 1) * g / (7 * a) + 4 * (mipCount - 1)` with
      `a = 1 << 3 * (mipCount - 1)`. */
  function MipBufferCount(g: nat, mipCount: nat): int
    requires mipCount >= 1
  {
    var a := Pow2(3 * (mipCount - 1));
    (a - 1) * g / (7 * a) + 4 * (mipCount - 1)
  }

  /** Each level's cells times 8 per level never exceed the base count. */
  lemma {:induction false} LevelCountBound(g: nat, n: nat)
    ensures Pow8(n) * LevelCount(g, n) <= g
  {
    if n > 0 {
      LevelCountBound(g, n - 1);
      var p, l := Pow8(n - 1), LevelCount(g, n - 1);
      assert 8 * (l / 8) <= l;
      assert Pow8(n) * LevelCount(g, n) == p * (8 * (l / 8));
      MulLe(p, 8 * (l / 8), l);
    }
  }

  lemma MulLe(p: nat, a: int, b: int)
    requires a <= b
    ensures p * a <= p * b
  {
  }

  /** The geometric bound behind the allocation: the cells of levels `1..n` sum to at
      most `g * (1 - 8^-n) / 7`. */
  lemma {:induction false} SegmentCellsBound(g: nat, n: nat)
    ensures 7 * Pow8(n) * (SegmentStart(g, n) - 4 * n) <= (Pow8(n) - 1) * g
  {
    if n > 0 {
      SegmentCellsBound(g, n - 1);
      LevelCountBound(g, n);
      var s := SegmentStart(g, n - 1) - 4 * (n - 1);
      assert SegmentStart(g, n) - 4 * n == s + LevelCount(g, n);
      GeometricStep(Pow8(n - 1), s, LevelCount(g, n), g);
    }
  }

  /** One step of the geometric sum: adding a level of at most `g / 8p` cells. */
  lemma GeometricStep(p: nat, s: int, l: nat, g: nat)
    requires 7 * p * s <= (p - 1) * g
    requires 8 * p * l <= g
    ensures 7 * (8 * p) * (s + l) <= (8 * p - 1) * g
  {
    var x, y := 7 * p * s, (p - 1) * g;
    var z := 8 * p * l;
    assert 7 * (8 * p) * (s + l) == 8 * x + 7 * z;
    assert (8 * p - 1) * g == 8 * y + 7 * g;
  }

  /** An integer `x` with `7a * x <= (a - 1) * g` is at most the floor of their ratio. */
  lemma FloorBound(x: nat, a: nat, g: nat)
    requires a >= 1
    requires 7 * a * x <= (a - 1) * g
    ensures x <= (a - 1) * g / (7 * a)
  {
    var d := 7 * a;
    assert x * d == 7 * a * x;
    DivMonotone(x * d, (a - 1) * g, d);
    DivExact(x, 0, d);
  }

  /** The segments of all `mipCount - 1` levels fit the allocated word count. */
  lemma SegmentsFit(g: nat, mipCount: nat)
    requires mipCount >= 1
    ensures SegmentStart(g, mipCount - 1) <= MipBufferCount(g, mipCount)
  {
    var n := mipCount - 1;
    SegmentCellsBound(g, n);
    Pow8IsPow2(n);
    SegmentCellsNonNegative(g, n);
    FloorBound(SegmentStart(g, n) - 4 * n, Pow8(n), g);
  }

  lemma {:induction false} SegmentCellsNonNegative(g: nat, n: nat)
    ensures SegmentStart(g, n) >= 4 * n
  {
    if n > 0 {
      SegmentCellsNonNegative(g, n - 1);
    }
  }

  /** Later segments start after earlier ones end. */
  lemma {:induction false} SegmentStartMonotone(g: nat, i: nat, j: nat)
    requires i < j
    ensures SegmentStart(g, i) + GetIndirectBufferSize(LevelCount(g, i + 1)) <= SegmentStart(g, j)
  {
    if i + 1 < j {
      SegmentStartMonotone(g, i, j - 1);
    }
  }

  /** Thread groups of the level-`n` material dispatch: the material extent over
      `GenerateMipDispatchKernelSize`, halved `n` times. */
  function HalvedGroups(matSize: Int3, n: nat): Int3
  {
    var k := SDFGeneration.GenerateMipDispatchKernelSize;
    Int3(HalveTimes(matSize.x / k, n), HalveTimes(matSize.y / k, n), HalveTimes(matSize.z / k, n))
  }

  /** One level of `GenerateVolumeMips`: the level generated, its
      `MipGenerationParameters`, the material dispatch's thread groups and the indirect
      scene dispatch. */
  datatype MipDispatch = MipDispatch(level: nat, parameters: Int3, threadGroups: Int3, arguments: IndirectDispatch)

  /** The indirect-argument buffer `GenerateVolumeMips` hands back, the initialisations
      recorded into it, and the per-level dispatches. */
  datatype MipGeneration = MipGeneration(buffer: RU.ComputeBuffer, initWrites: seq<BufferWrite>, dispatches: seq<MipDispatch>)

  /** `GenerateVolumeMips(cmd, sceneVolume, materialVolume, out indirectBuffer)`, with the
      mip parameters of level `i + 1` taken for mip `i + 1` (see
      `MipParametersAsWritten` for the argument the source passes). The source asserts
      the extents and mip counts match and that there is more than one mip; the mip count
      is also bounded by the `SceneMipCount` parameter spans it indexes. */
  method GenerateVolumeMips(sceneVolume: RU.VolumeRT, materialVolume: RU.VolumeRT) returns (r: MipGeneration)
    requires RU.GetVolumeRTSize(sceneVolume) == RU.GetVolumeRTSize(materialVolume).Mul(SDFGeneration.MatVolumeScale)
    requires sceneVolume.mipCount == materialVolume.mipCount
    requires 1 < sceneVolume.mipCount <= SDFGeneration.SceneMipCount
    ensures var g := RU.GetVolumeRTSize(materialVolume).Volume();
      && r.buffer.count == MipBufferCount(g, sceneVolume.mipCount) && r.buffer.stride == UIntSize && r.buffer.valid
      && |r.initWrites| == sceneVolume.mipCount - 1 && |r.dispatches| == sceneVolume.mipCount - 1
      && r.initWrites == SegmentWrites(g, sceneVolume.mipCount - 1)
      && (forall i :: 0 <= i < |r.initWrites| ==> r.initWrites[i] == InitializeIndirectBuffer(SegmentStart(g, i)))
    ensures forall i :: 0 <= i < |r.initWrites| ==> WriteInside(r.buffer, r.initWrites[i])
    ensures forall i :: 0 <= i < |r.dispatches| ==>
      && r.dispatches[i].level == i + 1
      && r.dispatches[i].arguments == DispatchIndirect(r.buffer, r.initWrites[i].offset)
      && r.dispatches[i].threadGroups == HalvedGroups(RU.GetVolumeRTSize(materialVolume), i + 1)
      && r.dispatches[i].parameters == Int3(HalveTimes(sceneVolume.width, i),
                                            HalveTimes(sceneVolume.volumeDepth, i),
                                            HalveTimes(sceneVolume.height, i))
  {
    var mipCount := sceneVolume.mipCount;
    var sceneSize := RU.GetVolumeRTSize(sceneVolume);
    var matSize := RU.GetVolumeRTSize(materialVolume);
    var g := matSize.Volume();

    var a := Pow2(3 * (mipCount - 1));
    var buffer := RU.NewComputeBuffer((a - 1) * g / (7 * a) + 4 * (mipCount - 1), UIntSize,
                                      RU.IndirectArguments, RU.Immutable);
    InitWritesInside(g, mipCount, buffer);
    var writes := InitializeSegments(g, mipCount - 1);
    var dispatches := DispatchLevels(sceneSize, matSize, buffer, g, mipCount - 1);
    SegmentWritesIndexed(g, mipCount - 1);
    r := MipGeneration(buffer, writes, dispatches);
  }

  /** The initialisation loop: one header per level, each after the previous level's
      segment. */
  method InitializeSegments(g: nat, levels: nat) returns (writes: seq<BufferWrite>)
    ensures writes == SegmentWrites(g, levels)
  {
    var grid := g;
    var offset := 0;
    writes := [];
    var i := 0;
    while i < levels
      invariant 0 <= i <= levels
      invariant grid == LevelCount(g, i) && offset == SegmentStart(g, i)
      invariant writes == SegmentWrites(g, i)
    {
      writes := writes + [InitializeIndirectBuffer(offset)];
      grid := grid / 8;
      offset := offset + GetIndirectBufferSize(grid);
      i := i + 1;
    }
  }

  /** The dispatch loop: the thread groups halve before each level, and the argument
      offset walks the same segments as the initialisation loop. */
  method DispatchLevels(sceneSize: Int3, matSize: Int3, buffer: RU.ComputeBuffer, g: nat, levels: nat)
    returns (dispatches: seq<MipDispatch>)
    requires levels < SDFGeneration.SceneMipCount
    ensures |dispatches| == levels
    ensures forall k :: 0 <= k < levels ==> dispatches[k] == LevelDispatch(sceneSize, matSize, buffer, g, k)
  {
    var grid := g;
    var offset := 0;
    var threadGroups := matSize.Div(SDFGeneration.GenerateMipDispatchKernelSize);
    dispatches := [];
    var i := 0;
    while i < levels
      invariant 0 <= i <= levels
      invariant grid == LevelCount(g, i) && offset == SegmentStart(g, i)
      invariant threadGroups == HalvedGroups(matSize, i)
      invariant |dispatches| == i
      invariant forall k :: 0 <= k < i ==> dispatches[k] == LevelDispatch(sceneSize, matSize, buffer, g, k)
    {
      var parameters := SDFGeneration.MipGenerationParameters(sceneSize, i + 1);
      threadGroups := Int3(threadGroups.x / 2, threadGroups.y / 2, threadGroups.z / 2);
      dispatches := dispatches + [MipDispatch(i + 1, parameters, threadGroups, DispatchIndirect(buffer, offset))];
      grid := grid / 8;
      offset := offset + GetIndirectBufferSize(grid);
      i := i + 1;
    }
  }

  /** The dispatch the loop records for level `k + 1`. */
  function LevelDispatch(sceneSize: Int3, matSize: Int3, buffer: RU.ComputeBuffer, g: nat, k: nat): MipDispatch
    requires k + 1 < SDFGeneration.SceneMipCount
  {
    MipDispatch(k + 1, SDFGeneration.MipGenerationParameters(sceneSize, k + 1), HalvedGroups(matSize, k + 1),
                DispatchIndirect(buffer, SegmentStart(g, k)))
  }

  lemma InitWritesInside(g: nat, mipCount: nat, buffer: RU.ComputeBuffer)
    requires mipCount >= 1 && buffer.count == MipBufferCount(g, mipCount)
    ensures forall k :: 0 <= k < mipCount - 1 ==> WriteInside(buffer, InitializeIndirectBuffer(SegmentStart(g, k)))
  {
    SegmentsFit(g, mipCount);
    forall k | 0 <= k < mipCount - 1
      ensures WriteInside(buffer, InitializeIndirectBuffer(SegmentStart(g, k)))
    {
      SegmentStartMonotone(g, k, mipCount - 1);
    }
  }

  /** The initialisations of the first `n` levels, in order. */
  function SegmentWrites(g: nat, n: nat): seq<BufferWrite>
  {
    if n == 0 then [] else SegmentWrites(g, n - 1) + [InitializeIndirectBuffer(SegmentStart(g, n - 1))]
  }

  lemma {:induction false} SegmentWritesIndexed(g: nat, n: nat)
    ensures |SegmentWrites(g, n)| == n
    ensures forall k :: 0 <= k < n ==> SegmentWrites(g, n)[k] == InitializeIndirectBuffer(SegmentStart(g, k))
  {
    if n > 0 {
      SegmentWritesIndexed(g, n - 1);
    }
  }

  /** Every level's indirect dispatch reads the arguments its own initialisation wrote:
      no later level's header overlaps an earlier one. */
  lemma {:induction false} LevelReadsOwnSeed(g: nat, n: nat, buffer: RU.ComputeBuffer, i: nat, k: nat)
    requires i < n && k < 3
    ensures WordAt(SegmentWrites(g, n), ArgumentWords(DispatchIndirect(buffer, SegmentStart(g, i)))[k])
            == Some(IndirectSeed[k + 1])
  {
    DispatchReadsHeader(buffer, SegmentStart(g, i), 0);
    var word := SegmentStart(g, i) + 1 + k;
    var earlier := SegmentWrites(g, n - 1);
    var last := InitializeIndirectBuffer(SegmentStart(g, n - 1));
    assert SegmentWrites(g, n) == earlier + [last];
    assert (earlier + [last])[..n - 1] == earlier by {
      SegmentWritesIndexed(g, n - 1);
    }
    if i < n - 1 {
      SegmentStartMonotone(g, i, n - 1);
      assert word < last.offset;
      LevelReadsOwnSeed(g, n - 1, buffer, i, k);
    }
  }

  // ---- the mip argument as the source passes it ----

  /** The parameters level `i` of the source's dispatch loop uploads: it passes the
      running argument offset `SegmentStart(g, i)` as the mip. `None` stands for the
      failed `0 <= mip < SceneMipCount` assertion. */
  function MipParametersAsWritten(sceneSize: Int3, g: nat, i: nat): Option<Int3>
  {
    var mip := SegmentStart(g, i);
    if mip < SDFGeneration.SceneMipCount then Some(SDFGeneration.MipGenerationParameters(sceneSize, mip)) else None
  }

  /** With at least one level-1 material cell (`g >= 8`), the first level gets the mip-0
      parameters (all zero) instead of the scene extent, and the second level's argument
      `g / 8 + 4` already fails the mip assertion; the corrected level `i + 1` gives the
      extent of mip `i`. */
  lemma MipParametersAsWrittenWrong(sceneSize: Int3, g: nat)
    requires g >= 8
    requires sceneSize.NonNegative() && IsInt32(sceneSize.x) && IsInt32(sceneSize.y) && IsInt32(sceneSize.z)
    ensures MipParametersAsWritten(sceneSize, g, 0) == Some(Zero3)
    ensures MipParametersAsWritten(sceneSize, g, 1).None?
    ensures SDFGeneration.MipGenerationParameters(sceneSize, 1) == sceneSize
    ensures SDFGeneration.MipGenerationParameters(sceneSize, 2)
            == Int3(sceneSize.x / 2, sceneSize.y / 2, sceneSize.z / 2)
  {
    SDFGeneration.MipZeroCollapses(sceneSize);
    assert LevelCount(g, 1) == g / 8;
    assert SegmentStart(g, 1) == g / 8 + 4;
  }

  // ---- the pipeline's scene state ----

  /** The pipeline's state: `IsSceneLoaded`, the scene it holds, the two volumes and the
      constant buffer (`None` is `null`), and the constant buffer's shape taken from the
      shader specifications. */
  datatype Pipeline = Pipeline(
    isSceneLoaded: bool,
    scene: Option<SDFScene.Scene>,
    sceneVolume: Option<RU.VolumeRT>,
    materialVolume: Option<RU.VolumeRT>,
    constantBuffer: Option<RU.ComputeBuffer>,
    constantBufferStrideCount: int,
    constantBufferStride: int)

  /** The scene volume and the material volume created together for one scene size. */
  predicate VolumesPaired(sceneVolume: RU.VolumeRT, materialVolume: RU.VolumeRT)
  {
    && sceneVolume.mipCount == materialVolume.mipCount == SDFGeneration.SceneMipCount
    && RU.GetVolumeRTSize(materialVolume) == RU.GetVolumeRTSize(sceneVolume).Div(SDFGeneration.MatVolumeScale)
  }

  /** The pipeline's invariant: the volumes exist together and were made for one size,
      and a loaded scene has live volumes of its size and a live constant buffer. */
  predicate Valid(p: Pipeline)
  {
    && (p.sceneVolume.Some? <==> p.materialVolume.Some?)
    && (p.sceneVolume.Some? ==> VolumesPaired(p.sceneVolume.value, p.materialVolume.value))
    && (p.isSceneLoaded ==>
          && p.scene.Some? && !SDFScene.IsEmpty(p.scene.value)
          && p.sceneVolume.Some? && p.sceneVolume.value.created && p.materialVolume.value.created
          && RU.GetVolumeRTSize(p.sceneVolume.value) == p.scene.value.size
          && p.constantBuffer.Some? && p.constantBuffer.value.valid)
  }

  /** `new ARenderPipeline(shaderSpecs)`. */
  function NewPipeline(strideCount: int, stride: int): (p: Pipeline)
    ensures Valid(p) && !p.isSceneLoaded && p.sceneVolume.None? && p.constantBuffer.None?
  {
    Pipeline(false, None, None, None, None, strideCount, stride)
  }

  /** A scene size the load can work with: `int` extents (a `Vector3Int`), none
      negative, each a multiple of `MatVolumeScale` so that the material volume times
      the scale is the scene volume, as `GenerateVolumeMips` asserts. */
  predicate LoadableSize(size: Int3)
  {
    && size.NonNegative()
    && IsInt32(size.x) && IsInt32(size.y) && IsInt32(size.z)
    && size.x % SDFGeneration.MatVolumeScale == 0
    && size.y % SDFGeneration.MatVolumeScale == 0
    && size.z % SDFGeneration.MatVolumeScale == 0
  }

  /** The two volumes after the resize step: the current ones when both exist and are
      created and the scene volume's width, height and depth are the size's x, z and y;
      otherwise new ones (the scene volume `R8_SNorm`, the material volume `R16_UInt` at
      a quarter of the size, both with `SceneMipCount` mips). */
  function ResizedVolumes(p: Pipeline, size: Int3): (r: (RU.VolumeRT, RU.VolumeRT))
    requires Valid(p) && size.NonNegative()
    ensures RU.GetVolumeRTSize(r.0) == size && r.0.created && r.1.created && VolumesPaired(r.0, r.1)
    ensures (Some(r.0), Some(r.1)) == (p.sceneVolume, p.materialVolume) <==>
      && p.sceneVolume.Some? && p.materialVolume.Some?
      && p.sceneVolume.value.created && p.materialVolume.value.created
      && RU.GetVolumeRTSize(p.sceneVolume.value) == size
  {
    var matSize := size.Div(SDFGeneration.MatVolumeScale);
    if p.sceneVolume.None? || p.materialVolume.None? || !p.sceneVolume.value.created || !p.materialVolume.value.created
       || p.sceneVolume.value.width != size.x || p.sceneVolume.value.height != size.z || p.sceneVolume.value.volumeDepth != size.y
    then
      (RU.CreateRWVolumeRT(RU.R8SNorm, size, SDFGeneration.SceneMipCount),
       RU.CreateRWVolumeRT(RU.R16UInt, matSize, SDFGeneration.SceneMipCount))
    else
      (p.sceneVolume.value, p.materialVolume.value)
  }

  /** The constant buffer after `LoadScene`: a new one when there is none or it is no
      longer valid. */
  function EnsuredConstantBuffer(p: Pipeline): (b: RU.ComputeBuffer)
    ensures b.valid
    ensures p.constantBuffer.Some? && p.constantBuffer.value.valid ==> b == p.constantBuffer.value
    ensures !(p.constantBuffer.Some? && p.constantBuffer.value.valid) ==>
      b == RU.NewComputeBuffer(p.constantBufferStrideCount, p.constantBufferStride, RU.ConstantBuffer, RU.SubUpdates)
  {
    if p.constantBuffer.None? || !p.constantBuffer.value.valid then
      RU.NewComputeBuffer(p.constantBufferStrideCount, p.constantBufferStride, RU.ConstantBuffer, RU.SubUpdates)
    else
      p.constantBuffer.value
  }

  /** What `LoadScene` records for the GPU, in order. */
  datatype LoadCommands = LoadCommands(
    clears: seq<TextureUtil.ClearCommand>,
    brushBuffer: RU.ComputeBuffer,
    brushRecords: seq<SDFGeneration.SDFBrush>,
    parameterBuffer: RU.ComputeBuffer,
    parameters: seq<real>,
    dispatchCoords: WordBuffer,
    brushIndices: WordBuffer,
    generationParameters: SDFGeneration.SDFGenerationParameters,
    matDispatch: Int3,
    sceneMip0Parameters: Int3,
    sceneMip0Dispatch: IndirectDispatch,
    mips: MipGeneration,
    released: seq<RU.ComputeBuffer>)

  /** The brush records uploaded for a collection: one `SDFBrush` per brush. */
  function BrushRecords(brushes: seq<BrushCollection.Brush>): (r: seq<SDFGeneration.SDFBrush>)
    requires forall i :: 0 <= i < |brushes| ==>
      IsInt32(brushes[i].parameterCount) && IsInt32(brushes[i].parameterOffset)
    ensures |r| == |brushes|
    ensures forall i :: 0 <= i < |brushes| ==>
      && SDFShapes.BrushTypeOf(r[i].brushType) == Some(brushes[i].property.brushType)
      && r[i].materialID == SDFGeneration.StoredMaterialID(brushes[i].property.materialID)
      && r[i].worldToLocal == brushes[i].property.worldToLocal
    ensures forall i :: 0 <= i < |brushes| && 0 <= brushes[i].parameterCount < 256
                        && 0 <= brushes[i].parameterOffset < SDFGeneration.OffsetLimit ==>
      && SDFGeneration.UnpackCount(r[i].parameterCountAndOffset) == brushes[i].parameterCount
      && SDFGeneration.UnpackOffset(r[i].parameterCountAndOffset) == brushes[i].parameterOffset
  {
    seq(|brushes|, i requires 0 <= i < |brushes| =>
      SDFGeneration.NewSDFBrush(brushes[i].property, brushes[i].parameterCount, brushes[i].parameterOffset))
  }

  /** The brushes a scene uploads can be encoded: their counts and offsets are `int`s. */
  predicate EncodableBrushes(brushes: seq<BrushCollection.Brush>)
  {
    forall i :: 0 <= i < |brushes| ==> IsInt32(brushes[i].parameterCount) && IsInt32(brushes[i].parameterOffset)
  }

  /** `LoadScene(scene)`. The source asserts no scene is loaded; an empty scene is
      ignored. Otherwise the volumes are resized, the constant buffer ensured, the scene
      volume's mips cleared to 1, the brushes and parameters uploaded, the indirect
      buffers allocated, mip 0 of both volumes generated, the other mips generated by
      `GenerateVolumeMips`, and the temporary buffers released. */
  method LoadScene(p: Pipeline, scene: SDFScene.Scene) returns (p': Pipeline, cmds: Option<LoadCommands>)
    requires Valid(p) && !p.isSceneLoaded
    requires !SDFScene.IsEmpty(scene) ==> LoadableSize(scene.size) && EncodableBrushes(scene.collection.brushes)
    ensures Valid(p')
    ensures SDFScene.IsEmpty(scene) <==> cmds.None?
    ensures SDFScene.IsEmpty(scene) ==> p' == p
    ensures !SDFScene.IsEmpty(scene) ==>
      && p'.isSceneLoaded && p'.scene == Some(scene)
      && RU.GetVolumeRTSize(p'.sceneVolume.value) == scene.size
      && (p'.sceneVolume, p'.materialVolume) == (Some(ResizedVolumes(p, scene.size).0), Some(ResizedVolumes(p, scene.size).1))
      && p'.constantBuffer == Some(EnsuredConstantBuffer(p))
      && p'.constantBufferStrideCount == p.constantBufferStrideCount && p'.constantBufferStride == p.constantBufferStride
    ensures cmds.Some? ==> LoadRecorded(scene, p'.sceneVolume.value, p'.materialVolume.value, cmds.value)
  {
    if SDFScene.IsEmpty(scene) {
      return p, None;
    }
    var size := scene.size;
    var volumes := ResizedVolumes(p, size);
    var sceneVolume, materialVolume := volumes.0, volumes.1;
    var constantBuffer := EnsuredConstantBuffer(p);

    var clears := seq(SDFGeneration.SceneMipCount, j => TextureUtil.ClearVolume(sceneVolume, 1.0, j));

    var collection := scene.collection;
    var brushBuffer := RU.NewComputeBuffer(|collection.brushes|, SDFGeneration.SDFBrushSize, RU.StructuredBuffer, RU.Immutable);
    var records := BrushRecords(collection.brushes);
    var parameterBuffer := RU.NewComputeBuffer(|collection.brushParameters|, SDFShapes.FloatSize, RU.StructuredBuffer, RU.Immutable);

    var matSize := size.Div(SDFGeneration.MatVolumeScale);
    var g := matSize.Volume();
    var dispatchCoords := GetIndirectBuffer(g);
    var brushIndices := GetAppendBuffer(g * SDFGeneration.MaxBrushCountFactor);

    var generation := SDFGeneration.NewSDFGenerationParameters(scene.sceneToWorld, collection.brushes);
    var matDispatch := matSize.Div(SDFGeneration.GenerateMatVolumeKernelSize);
    var mip0 := SDFGeneration.MipGenerationParameters(size, 0);
    SDFGeneration.MipZeroCollapses(size);
    var mip0Dispatch := DispatchIndirect(dispatchCoords.buffer);

    assert RU.GetVolumeRTSize(materialVolume) == matSize;
    assert matSize.Mul(SDFGeneration.MatVolumeScale) == size;
    var mips := GenerateVolumeMips(sceneVolume, materialVolume);

    var released := [RU.ReleaseBuffer(brushBuffer), RU.ReleaseBuffer(parameterBuffer),
                     RU.ReleaseBuffer(brushIndices.buffer), RU.ReleaseBuffer(dispatchCoords.buffer),
                     RU.ReleaseBuffer(mips.buffer)];
    cmds := Some(LoadCommands(clears, brushBuffer, records, parameterBuffer, collection.brushParameters,
                              dispatchCoords, brushIndices, generation, matDispatch, mip0, mip0Dispatch, mips, released));
    p' := p.(isSceneLoaded := true, scene := Some(scene), sceneVolume := Some(sceneVolume),
             materialVolume := Some(materialVolume), constantBuffer := Some(constantBuffer));
  }

  /** The commands a load of `scene` into `sceneVolume` and `materialVolume` records:
      - every scene mip cleared to 1, the largest SNorm value;
      - one encoded brush record per brush (stride `sizeof(SDFBrush)`) and the brush
        parameters as floats;
      - a dispatch-coordinate buffer of `G + 4` words and a brush-index append buffer of
        `G * MaxBrushCountFactor + 1` words, `G` being the material cell count;
      - the generation parameters counting the scene's brushes;
      - the material kernel over the material extent in groups of 4, the scene kernel
        for mip 0 (whose parameters collapse to zero) dispatched from the coordinate
        buffer, and the mip levels from `GenerateVolumeMips`;
      - the five temporary buffers released. */
  predicate LoadRecorded(scene: SDFScene.Scene, sceneVolume: RU.VolumeRT, materialVolume: RU.VolumeRT, c: LoadCommands)
  {
    var brushes := scene.collection.brushes;
    var matSize := scene.size.Div(SDFGeneration.MatVolumeScale);
    var g := matSize.Volume();
    && RU.GetVolumeRTSize(materialVolume) == matSize
    && |c.clears| == SDFGeneration.SceneMipCount
    && (forall j :: 0 <= j < |c.clears| ==>
          c.clears[j].destination == sceneVolume && c.clears[j].destinationMip == j && c.clears[j].value == 1.0)
    && c.brushBuffer.count == |brushes| == |c.brushRecords| && c.brushBuffer.stride == SDFGeneration.SDFBrushSize
    && EncodableBrushes(brushes) && c.brushRecords == BrushRecords(brushes)
    && c.parameterBuffer.count == |c.parameters| && c.parameters == scene.collection.brushParameters
    && c.parameterBuffer.stride == SDFShapes.FloatSize
    && c.dispatchCoords.buffer.count == g + 4 && c.dispatchCoords.writes == [BufferWrite(0, IndirectSeed)]
    && c.brushIndices.buffer.count == g * SDFGeneration.MaxBrushCountFactor + 1
    && c.brushIndices.writes == [BufferWrite(0, [1])]
    && c.generationParameters.sdfBrushCount == |brushes|
    && c.matDispatch.Mul(SDFGeneration.GenerateMatVolumeKernelSize).x <= matSize.x
    && c.matDispatch.Mul(SDFGeneration.GenerateMatVolumeKernelSize).y <= matSize.y
    && c.matDispatch.Mul(SDFGeneration.GenerateMatVolumeKernelSize).z <= matSize.z
    && c.sceneMip0Parameters == Zero3
    && c.sceneMip0Dispatch == DispatchIndirect(c.dispatchCoords.buffer, 0)
    && c.mips.buffer.count == MipBufferCount(g, SDFGeneration.SceneMipCount)
    && c.mips.initWrites == SegmentWrites(g, SDFGeneration.SceneMipCount - 1)
    && |c.mips.dispatches| == SDFGeneration.SceneMipCount - 1
    && |c.released| == 5 && (forall b :: b in c.released ==> !b.valid)
    && c.released[0] == RU.ReleaseBuffer(c.brushBuffer) && c.released[1] == RU.ReleaseBuffer(c.parameterBuffer)
    && c.released[2] == RU.ReleaseBuffer(c.brushIndices.buffer)
    && c.released[3] == RU.ReleaseBuffer(c.dispatchCoords.buffer)
    && c.released[4] == RU.ReleaseBuffer(c.mips.buffer)
  }

  /** `UnloadScene()`: when no scene is loaded it only logs (the second component);
      otherwise it releases both volumes and the constant buffer and clears
      `IsSceneLoaded`, keeping everything else. */
  function UnloadScene(p: Pipeline): (r: (Pipeline, bool))
    ensures !p.isSceneLoaded ==> r == (p, true)
    ensures p.isSceneLoaded ==>
      && !r.1 && !r.0.isSceneLoaded
      && r.0.(isSceneLoaded := true, sceneVolume := p.sceneVolume, materialVolume := p.materialVolume,
              constantBuffer := p.constantBuffer) == p
    ensures Valid(p) && p.isSceneLoaded ==>
      && r.0.sceneVolume.Some? && !r.0.sceneVolume.value.created
      && r.0.materialVolume.Some? && !r.0.materialVolume.value.created
      && r.0.constantBuffer.Some? && !r.0.constantBuffer.value.valid
    ensures Valid(p) ==> Valid(r.0)
  {
    if !p.isSceneLoaded then
      (p, true)
    else
      (p.(isSceneLoaded := false,
          sceneVolume := ReleaseIfAny(p.sceneVolume),
          materialVolume := ReleaseIfAny(p.materialVolume),
          constantBuffer := if p.constantBuffer.Some? then Some(RU.ReleaseBuffer(p.constantBuffer.value)) else None),
       false)
  }

  function ReleaseIfAny(v: Option<RU.VolumeRT>): (r: Option<RU.VolumeRT>)
    ensures r.Some? <==> v.Some?
    ensures v.Some? ==> r.value == RU.ReleaseVolume(v.value)
  {
    if v.Some? then Some(RU.ReleaseVolume(v.value)) else None
  }

  /** An unload right after an unload finds nothing loaded and only logs. */
  lemma UnloadTwiceOnlyLogs(p: Pipeline)
    ensures var once := UnloadScene(p).0; UnloadScene(once) == (once, true)
  {
  }

  /** The guard at the top of `Render`: with no loaded scene, or a disabled one, the
      frame unloads and stops (`false`); otherwise it goes on to draw (`true`) from the
      unchanged state. */
  function Render(p: Pipeline, sceneEnabled: bool): (r: (Pipeline, bool))
    ensures r.1 <==> p.isSceneLoaded && sceneEnabled
    ensures r.1 ==> r.0 == p
    ensures !r.1 ==> r.0 == UnloadScene(p).0 && !r.0.isSceneLoaded
    ensures Valid(p) ==> Valid(r.0)
  {
    if !p.isSceneLoaded || !sceneEnabled then (UnloadScene(p).0, false) else (p, true)
  }

  /** `Dispose(disposing)`: returns at once when `disposing`, otherwise unloads. */
  function Dispose(p: Pipeline, disposing: bool): (r: Pipeline)
    ensures disposing ==> r == p
    ensures !disposing ==> !r.isSceneLoaded
  {
    if disposing then p else UnloadScene(p).0
  }
}
