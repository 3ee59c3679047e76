/** `SDFGenerationCompute` (SDFGenerationCompute.cs): the records uploaded for SDF
    generation, its constants, and its constant-buffer registrations. `uint` fields
    are `bv32`; C# `int` arithmetic that wraps is written out. */
module SDFGeneration {
  import opened Wrappers
  import opened IntMath
  import opened Vectors
  import SDFShapes
  import CBufferArena

  /** `MatVolumeScale`: the scene volume is 4 times the material volume on each axis. */
  const MatVolumeScale: nat := 4
  /** `MatVolumeTileSize`: threads per axis of the material-volume kernel. */
  const MatVolumeTileSize: nat := 4
  const MaxBrushPerMatVolumeGrid: nat := 16
  /** `MaxBrushCountFactor = MaxBrushPerMatVolumeGrid / 8`, which is 2. */
  const MaxBrushCountFactor: nat := MaxBrushPerMatVolumeGrid / 8
  const GenerateMatVolumeKernelSize: nat := 4
  const GenerateMipDispatchKernelSize: nat := 4
  /** `SceneMipCount` of the shader specifications. */
  const SceneMipCount: nat := 5

  /** `sizeof` of the uploaded structs (`Pack = 1`): `SDFBrush` is a 48-byte `Matrix3x4`,
      three `uint`s and a `float` (64 bytes); `SDFGenerationParameters` three `Vector4`s,
      a `Vector2` and an `int` (60 bytes); `MipGenerationParameters` one `Vector3Int`. */
  const SDFBrushSize: nat := 48 + 4 + 4 + 4 + 4
  const SDFGenerationParametersSize: nat := 3 * 16 + 8 + 4
  const MipGenerationParametersSize: nat := 12

  // ---- SDFBrush ----

  /** The `int` `x` reinterpreted as a `uint` (two's complement). */
  function IntBits(x: int): (b: UInt32)
    requires IsInt32(x)
    ensures 0 <= x ==> b == x
  {
    if x >= 0 then x else x + UInt32Modulus
  }

  const CountShift: nat := 24
  const OffsetLimit: nat := 0x100_0000

  /** `(uint)(parameterCount << 24 | parameterOffset)` on C# `int`s: the count's bits
      shifted to the top byte (the rest fall off the word), and the offset or-ed over
      the whole word, sign bits included. */
  function PackCountAndOffset(parameterCount: int, parameterOffset: int): nat
    requires IsInt32(parameterCount) && IsInt32(parameterOffset)
  {
    BitOr((IntBits(parameterCount) * OffsetLimit) % UInt32Modulus, IntBits(parameterOffset))
  }

  /** The count the generation kernel reads back: the top eight bits of the word. */
  function UnpackCount(p: nat): (c: nat)
    ensures c < 256
  {
    (p / OffsetLimit) % 256
  }

  /** The offset the generation kernel reads back: the low 24 bits. */
  function UnpackOffset(p: nat): (o: nat)
    ensures o < OffsetLimit
  {
    p % OffsetLimit
  }

  lemma OffsetLimitIsPow2()
    ensures Pow2(CountShift) == OffsetLimit
  {
    Pow2Add(12, 12);
    assert Pow2(12) == 0x1000;
  }

  /** In range the packed word is the sum of the shifted count and the offset. */
  lemma PackInRange(c: nat, o: nat)
    requires c < 256 && o < OffsetLimit
    ensures PackCountAndOffset(c, o) == c * OffsetLimit + o
  {
    assert c * OffsetLimit < UInt32Modulus;
    OffsetLimitIsPow2();
    BitOrShifted(c, o, CountShift);
  }

  /** Both halves decode back exactly when the count fits eight bits and the offset
      fits 24 bits. */
  lemma PackRoundTrip(parameterCount: int, parameterOffset: int)
    requires IsInt32(parameterCount) && IsInt32(parameterOffset)
    ensures var p := PackCountAndOffset(parameterCount, parameterOffset);
      (UnpackCount(p) == parameterCount && UnpackOffset(p) == parameterOffset) <==>
      (0 <= parameterCount < 256 && 0 <= parameterOffset < OffsetLimit)
  {
    var p := PackCountAndOffset(parameterCount, parameterOffset);
    if 0 <= parameterCount < 256 && 0 <= parameterOffset < OffsetLimit {
      var c: nat, o: nat := parameterCount, parameterOffset;
      PackInRange(c, o);
      DivUnique(p, OffsetLimit, c, o);
      assert p / OffsetLimit == c && p % OffsetLimit == o;
    } else {
      assert UnpackCount(p) < 256 && UnpackOffset(p) < OffsetLimit;
    }
  }

  /** Out of range, different pairs share a word: an offset past 2^24 spills into the
      count, so a brush with no parameters at offset `2^24 + o` reads back as one
      parameter at offset `o`. */
  lemma PackCollides(o: nat)
    requires o < OffsetLimit
    ensures PackCountAndOffset(0, OffsetLimit + o) == PackCountAndOffset(1, o)
    ensures UnpackCount(PackCountAndOffset(0, OffsetLimit + o)) == 1
    ensures UnpackOffset(PackCountAndOffset(0, OffsetLimit + o)) == o
  {
    BitOrZero(OffsetLimit + o);
    OffsetLimitIsPow2();
    BitOrShifted(1, o, CountShift);
    DivExact(1, o, OffsetLimit);
  }

  /** The part of an `SDFBrushProperty` an `SDFBrush` copies; the transform's matrix
      and inverse scale are opaque values. */
  datatype BrushProperty = BrushProperty(worldToLocal: seq<real>, scaleInv: real,
                                         brushType: SDFShapes.SDFBrushType, materialID: UInt32)

  datatype SDFBrush = SDFBrush(worldToLocal: seq<real>, brushType: UInt32, materialID: UInt32,
                               parameterCountAndOffset: nat, scaleInv: real)

  /** `MaterialID + 1` on a `uint`. Material 0 is left free: the stored ID is zero
      only for the largest `uint`, which wraps around. */
  function StoredMaterialID(materialID: UInt32): (r: UInt32)
    ensures r == 0 <==> materialID == UInt32Modulus - 1
    ensures r != 0 ==> r == materialID + 1
  {
    (materialID + 1) % UInt32Modulus
  }

  /** `new SDFBrush(property, parameterCount, parameterOffset)`. */
  function NewSDFBrush(property: BrushProperty, parameterCount: int, parameterOffset: int): (b: SDFBrush)
    requires IsInt32(parameterCount) && IsInt32(parameterOffset)
    ensures b.brushType == property.brushType.Ordinal()
    ensures SDFShapes.BrushTypeOf(b.brushType) == Some(property.brushType)
    ensures b.materialID == StoredMaterialID(property.materialID)
    ensures 0 <= parameterCount < 256 && 0 <= parameterOffset < OffsetLimit ==>
      UnpackCount(b.parameterCountAndOffset) == parameterCount &&
      UnpackOffset(b.parameterCountAndOffset) == parameterOffset
    ensures b.worldToLocal == property.worldToLocal && b.scaleInv == property.scaleInv
  {
    SDFShapes.OrdinalRoundTrip(property.brushType);
    PackRoundTrip(parameterCount, parameterOffset);
    SDFBrush(property.worldToLocal, property.brushType.Ordinal(), StoredMaterialID(property.materialID),
             PackCountAndOffset(parameterCount, parameterOffset), property.scaleInv)
  }

  // ---- SDFGenerationParameters ----

  /** `SDFGenerationParameters` without the cull radius: the scene-to-world rows and
      the brush count. */
  datatype SDFGenerationParameters = SDFGenerationParameters(sceneToWorldRows: seq<seq<real>>, sdfBrushCount: int)

  /** `new SDFGenerationParameters(scene)`, given the scene's transform rows and its
      collection's brushes. */
  function NewSDFGenerationParameters<B>(sceneToWorldRows: seq<seq<real>>, brushes: seq<B>): (p: SDFGenerationParameters)
    requires |sceneToWorldRows| >= 3
    ensures p.sdfBrushCount == |brushes|
    ensures p.sceneToWorldRows == sceneToWorldRows[..3]
  {
    SDFGenerationParameters(sceneToWorldRows[..3], |brushes|)
  }

  // ---- MipGenerationParameters ----

  /** `new MipGenerationParameters(sceneVolumeSize, mip)`: asserts `0 <= mip < SceneMipCount`
      and shifts each axis right by `mip - 1`. */
  function MipGenerationParameters(sceneVolumeSize: Int3, mip: int): (r: Int3)
    requires 0 <= mip < SceneMipCount
    ensures mip >= 1 ==> r == Int3(HalveTimes(sceneVolumeSize.x, mip - 1),
                                   HalveTimes(sceneVolumeSize.y, mip - 1),
                                   HalveTimes(sceneVolumeSize.z, mip - 1))
  {
    var r := Int3(ShiftRight(sceneVolumeSize.x, mip - 1), ShiftRight(sceneVolumeSize.y, mip - 1),
                  ShiftRight(sceneVolumeSize.z, mip - 1));
    if mip >= 1 then
      ShiftRightIsHalving(sceneVolumeSize.x, mip - 1);
      ShiftRightIsHalving(sceneVolumeSize.y, mip - 1);
      ShiftRightIsHalving(sceneVolumeSize.z, mip - 1);
      r
    else r
  }

  /** At mip 0 the shift count -1 is masked to 31, so every non-negative `int` extent
      becomes 0 rather than the level-(-1) size the formula suggests. */
  lemma MipZeroCollapses(sceneVolumeSize: Int3)
    requires sceneVolumeSize.NonNegative()
    requires IsInt32(sceneVolumeSize.x) && IsInt32(sceneVolumeSize.y) && IsInt32(sceneVolumeSize.z)
    ensures MipGenerationParameters(sceneVolumeSize, 0) == Zero3
  {
    assert (0 - 1) % 32 == 31;
    Pow2Of31();
    var d := Pow2(31);
    DivUnique(sceneVolumeSize.x, d, 0, sceneVolumeSize.x);
    DivUnique(sceneVolumeSize.y, d, 0, sceneVolumeSize.y);
    DivUnique(sceneVolumeSize.z, d, 0, sceneVolumeSize.z);
  }

  // ---- registration ----

  /** The struct sizes `OnAfterDeserialize` registers, in order: one
      `SDFGenerationParameters`, then `SceneMipCount` `MipGenerationParameters`. */
  function Registrations(): (r: seq<nat>)
    ensures |r| == 1 + SceneMipCount
    ensures r[0] == SDFGenerationParametersSize
    ensures forall i :: 1 <= i < |r| ==> r[i] == MipGenerationParametersSize
  {
    [SDFGenerationParametersSize, MipGenerationParametersSize, MipGenerationParametersSize,
     MipGenerationParametersSize, MipGenerationParametersSize, MipGenerationParametersSize]
  }

  /** Registering a single struct is one `Register` call. */
  lemma RegisterFirst(a: CBufferArena.Arena, size: nat)
    ensures var r := CBufferArena.Register(a, size);
      CBufferArena.RegisterAll(a, [size]) == (r.0, [r.1])
  {
    var e: seq<nat> := [];
    var r := CBufferArena.Register(a, size);
    CBufferArena.RegisterAllSnoc(a, e, size);
    assert e + [size] == [size];
    assert CBufferArena.RegisterAll(a, e) == (a, []);
    assert CBufferArena.RegisterAll(a, e + [size]) == (r.0, [] + [r.1]);
    assert [] + [r.1] == [r.1];
  }

  /** `OnAfterDeserialize`: the registrations on the shared arena, through the loop the
      source runs. The spans are the ones the arena hands out for `Registrations()`. */
  method OnAfterDeserialize(a: CBufferArena.Arena)
    returns (a': CBufferArena.Arena, paramsSpan: CBufferArena.Span, mipSpans: seq<CBufferArena.Span>)
    ensures |mipSpans| == SceneMipCount
    ensures (a', [paramsSpan] + mipSpans) == CBufferArena.RegisterAll(a, Registrations())
    ensures paramsSpan.offsetInBytes == a.byteCount
  {
    var regs := Registrations();
    var first := CBufferArena.Register(a, SDFGenerationParametersSize);
    a', paramsSpan := first.0, first.1;
    RegisterFirst(a, SDFGenerationParametersSize);
    assert regs[..1] == [SDFGenerationParametersSize];
    mipSpans := [];
    assert [paramsSpan] + mipSpans == [paramsSpan];
    var i := 0;
    while i < SceneMipCount
      invariant 0 <= i <= SceneMipCount
      invariant |mipSpans| == i
      invariant (a', [paramsSpan] + mipSpans) == CBufferArena.RegisterAll(a, regs[..i + 1])
    {
      assert regs[..i + 2] == regs[..i + 1] + [MipGenerationParametersSize];
      var next := CBufferArena.Register(a', MipGenerationParametersSize);
      CBufferArena.RegisterAllSnoc(a, regs[..i + 1], MipGenerationParametersSize);
      assert ([paramsSpan] + mipSpans) + [next.1] == [paramsSpan] + (mipSpans + [next.1]);
      a', mipSpans := next.0, mipSpans + [next.1];
      i := i + 1;
    }
    assert regs[..SceneMipCount + 1] == regs;
  }
}
