/** `FluidEmitter.Cube` (FluidEmitter.Cube.cs): a box that emits particles, with a
    particle counter and the 48-byte `Parameters` record it serialises. Float
    vectors are `Real3`; the record is modelled as its twelve float slots. */
module CubeEmitter {
  import opened Vectors
  import FluidEmitterTypes
  import FluidEmitterBase

  /** `Parameters`: four packed `Vector3`s, 12 floats, 48 bytes. */
  datatype CubeParameters = CubeParameters(min: Real3, max: Real3, linearVelocity: Real3, angularVelocity: Real3)

  const ParameterFloatCount: nat := 12
  const ParametersSize: nat := 4 * ParameterFloatCount

  /** The per-particle type argument `NullFluidEmitterParameter` is not declared in this
      revision. It is taken to be an empty struct like `NullFluidEmitterProperty`, and C#
      gives an empty struct a `sizeof` of 1. */
  const NullParameterSize: nat := 1

  /** The cube's property layout as declared: `Parameters` per emitter and the empty
      struct per particle. */
  const CubeLayout := FluidEmitterBase.PropertyLayout(ParametersSize, NullParameterSize)

  /** The layout the empty per-particle marker evidently stands for: no bytes per particle. */
  const CubeLayoutIntended := FluidEmitterBase.PropertyLayout(ParametersSize, 0)

  function Floats(v: Real3): seq<real>
  {
    [v.x, v.y, v.z]
  }

  /** The float slots of `Parameters` in declaration order (sequential layout, `Pack = 1`). */
  function Serialize(p: CubeParameters): (r: seq<real>)
    ensures |r| == ParameterFloatCount
    ensures r[0..3] == Floats(p.min) && r[3..6] == Floats(p.max)
    ensures r[6..9] == Floats(p.linearVelocity) && r[9..12] == Floats(p.angularVelocity)
  {
    var r := Floats(p.min) + Floats(p.max) + Floats(p.linearVelocity) + Floats(p.angularVelocity);
    assert r[6..9] == [r[6], r[7], r[8]] && r[9..12] == [r[9], r[10], r[11]];
    r
  }

  function Deserialize(r: seq<real>): CubeParameters
    requires |r| == ParameterFloatCount
  {
    CubeParameters(Real3(r[0], r[1], r[2]), Real3(r[3], r[4], r[5]),
                   Real3(r[6], r[7], r[8]), Real3(r[9], r[10], r[11]))
  }

  /** Reading the slots back in the same order recovers the record. */
  lemma SerializeRoundTrip(p: CubeParameters)
    ensures Deserialize(Serialize(p)) == p
  {
    var r := Serialize(p);
    assert r[0..3][0] == r[0] && r[3..6][0] == r[3] && r[6..9][0] == r[6] && r[9..12][0] == r[9];
  }

  datatype Cube = Cube(min: Real3, max: Real3, linearVelocity: Real3, angularVelocity: Real3, particleCount: int)
  {
    /** `EmitterType` is `FluidEmitterType.Cube` whatever the state. */
    function EmitterType(): FluidEmitterTypes.FluidEmitterType
    {
      FluidEmitterTypes.Cube
    }
  }

  /** `Cube(min, max, linearVelocity, angularVelocity, particleCount = 0)`. */
  function NewCube(min: Real3, max: Real3, linearVelocity: Real3, angularVelocity: Real3, particleCount: int := 0): (c: Cube)
  {
    Cube(min, max, linearVelocity, angularVelocity, particleCount)
  }

  /** `Cube(min, max, linearVelocity, particleCount = 0)`: no angular velocity. */
  function NewCubeNoSpin(min: Real3, max: Real3, linearVelocity: Real3, particleCount: int := 0): (c: Cube)
    ensures c.angularVelocity == ZeroR3 && c.linearVelocity == linearVelocity
    ensures c.min == min && c.max == max && c.particleCount == particleCount
  {
    NewCube(min, max, linearVelocity, ZeroR3, particleCount)
  }

  /** `Cube(min, max, particleCount = 0)`: at rest. */
  function NewCubeAtRest(min: Real3, max: Real3, particleCount: int := 0): (c: Cube)
    ensures c.linearVelocity == ZeroR3 && c.angularVelocity == ZeroR3
    ensures c.min == min && c.max == max && c.particleCount == particleCount
  {
    NewCubeNoSpin(min, max, ZeroR3, particleCount)
  }

  /** `Cube()`: everything zero, no particles. */
  function NewCubeEmpty(): (c: Cube)
    ensures c == Cube(ZeroR3, ZeroR3, ZeroR3, ZeroR3, 0)
  {
    NewCubeAtRest(ZeroR3, ZeroR3)
  }

  /** `AddParticles(count)`: the asserted `count >= 0`, then the counter grows by `count`. */
  function AddParticles(c: Cube, count: int): (r: Cube)
    requires count >= 0
    ensures r.particleCount == c.particleCount + count
    ensures r.(particleCount := c.particleCount) == c
  {
    c.(particleCount := c.particleCount + count)
  }

  /** `ClearParticles`: the counter drops to 0, nothing else changes. */
  function ClearParticles(c: Cube): (r: Cube)
    ensures r.particleCount == 0
    ensures r.(particleCount := c.particleCount) == c
  {
    c.(particleCount := 0)
  }

  /** `ClearEmitter`: zeroes the box and both velocities, then clears the particles. */
  function ClearEmitter(c: Cube): (r: Cube)
    ensures r == NewCubeEmpty()
  {
    ClearParticles(c.(min := ZeroR3, max := ZeroR3, linearVelocity := ZeroR3, angularVelocity := ZeroR3))
  }

  /** `GetParameters`: the record built from the four vectors, in declaration order. */
  function GetParameters(c: Cube): (p: CubeParameters)
    ensures Serialize(p) == Floats(c.min) + Floats(c.max) + Floats(c.linearVelocity) + Floats(c.angularVelocity)
  {
    CubeParameters(c.min, c.max, c.linearVelocity, c.angularVelocity)
  }

  /** `PropertyByteCount` of a cube emitter as declared: the 48-byte `Parameters` record
      plus one byte per particle, so a multiple of 4 only when the particle count is. */
  function CubePropertyByteCount(c: Cube): (r: nat)
    requires c.particleCount >= 0
    ensures r == ParametersSize + c.particleCount
    ensures r % 4 == 0 <==> c.particleCount % 4 == 0
  {
    FluidEmitterBase.PropertyByteCount(CubeLayout, c.particleCount)
  }

  /** The base constructor's `sizeof(TParticleProperty) % 4 == 0` assertion fails for a
      cube, and a one-particle cube reports 49 bytes. */
  lemma CubeLayoutFailsConstructorAssert()
    ensures !FluidEmitterBase.ValidLayout(CubeLayout)
    ensures CubePropertyByteCount(NewCubeAtRest(ZeroR3, ZeroR3, 1)) == 49
  {
  }

  /** With the empty marker contributing no bytes, a cube reports one `Parameters` record
      whatever its particle count, and the layout passes the constructor's assertions. */
  function CubePropertyByteCountIntended(c: Cube): (r: nat)
    requires c.particleCount >= 0
    ensures FluidEmitterBase.ValidLayout(CubeLayoutIntended)
    ensures r == ParametersSize && r % 4 == 0
  {
    FluidEmitterBase.PropertyByteCount(CubeLayoutIntended, c.particleCount)
  }
}
