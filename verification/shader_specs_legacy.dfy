/** The older revision of the constant-buffer arena, `AShaderSpecs` (AShaderSpecs.cs).
    Its `ConstantBufferSegment<T>` and `RegisterConstantBuffer<T>` are the same as in
    `AShaderSpecifications` and reuse `CBufferArena`; `OnEnable` initialises four specs,
    and the declared `FluidSolver` spec is never initialised, so it registers nothing. */
module ShaderSpecsLegacy {
  import opened IntMath
  import CBufferArena

  /** The struct sizes each declared spec would register. */
  datatype LegacySpecs = LegacySpecs(
    textureUtil: seq<nat>, sdfGeneration: seq<nat>, rayMarching: seq<nat>,
    deferred: seq<nat>, fluidSolver: seq<nat>)

  /** The order `OnEnable` initialises specs in; `FluidSolver` is not among them. */
  function InitializedOrder(s: LegacySpecs): seq<nat>
  {
    s.textureUtil + s.sdfGeneration + s.rayMarching + s.deferred
  }

  /** `OnEnable`: the same assertions and reset as the newer revision, four specs, and
      `ConstantBufferCount` converted to 4-byte strides. Nothing the `FluidSolver` spec
      would register is laid out. */
  function OnEnable(previousCount: nat, alignment: int, specs: LegacySpecs): (r: CBufferArena.ShaderSpecs)
    requires CBufferArena.AlignmentAccepted(alignment)
    ensures |r.spans| == |specs.textureUtil| + |specs.sdfGeneration| + |specs.rayMarching| + |specs.deferred|
    ensures forall i :: 0 <= i < |r.spans| ==>
      && r.spans[i].offsetInBytes == CBufferArena.AlignedOffset(InitializedOrder(specs), r.alignmentLog2, i)
      && r.spans[i].structSize == InitializedOrder(specs)[i]
    ensures r.constantBufferStrideCount == CBufferArena.StrideCount(CBufferArena.AlignedTotal(InitializedOrder(specs), r.alignmentLog2))
    ensures Pow2(r.alignmentLog2) == alignment
  {
    CBufferArena.Enable(alignment, InitializedOrder(specs))
  }

  /** The newer revision's specs with the same first four specs. */
  function Newer(s: LegacySpecs, debugFluidParticle: seq<nat>): CBufferArena.SpecRegistrations
  {
    CBufferArena.SpecRegistrations(s.textureUtil, s.sdfGeneration, s.rayMarching, s.deferred, s.fluidSolver, debugFluidParticle)
  }

  /** The older revision lays out the four specs it initialises exactly where the newer
      one does; the newer one then continues with `FluidSolver` and `DebugFluidParticle`. */
  lemma {:induction false} LegacyLayoutIsPrefixOfNewer(previousCount: nat, alignment: int, specs: LegacySpecs, debugFluidParticle: seq<nat>)
    requires CBufferArena.AlignmentAccepted(alignment)
    ensures var older := OnEnable(previousCount, alignment, specs);
      var newer := CBufferArena.OnEnable(previousCount, alignment, Newer(specs, debugFluidParticle));
      && |older.spans| <= |newer.spans|
      && older.spans == newer.spans[..|older.spans|]
  {
    var o4 := InitializedOrder(specs);
    var rest := specs.fluidSolver + debugFluidParticle;
    assert CBufferArena.RegistrationOrder(Newer(specs, debugFluidParticle)) == o4 + rest;
    var k := CBufferArena.MaskLog2(alignment - 1);
    CBufferArena.RegisterAllPrefix(CBufferArena.Arena(k, 0), o4, rest);
  }
}
