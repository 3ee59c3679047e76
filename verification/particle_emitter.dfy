/** `FluidEmitter.Particle` (FluidEmitter.Particle.cs): an emitter that holds a list
    of particle descriptors and copies them into a caller's buffer. */
module ParticleEmitter {
  import opened Wrappers
  import opened Vectors
  import FluidEmitterTypes

  /** `ParticleParams`: a packed position and velocity, 24 bytes. */
  datatype ParticleParams = ParticleParams(position: Real3, velocity: Real3)

  const ParticleParamsSize: nat := 24

  /** The empty `EmitterParams` struct. */
  datatype EmitterParams = EmitterParams

  datatype ParticleError = NotImplemented | IndexOutOfRange(index: nat)

  datatype Particle = Particle(descriptors: seq<ParticleParams>)
  {
    /** `EmitterType` is `FluidEmitterType.Particle` whatever the state. */
    function EmitterType(): FluidEmitterTypes.FluidEmitterType
    {
      FluidEmitterTypes.Particle
    }
  }

  /** A new emitter starts with an empty descriptor list. */
  const NewParticle := Particle([])

  /** Reading `EmitterParam` throws `NotImplementedException`. */
  function EmitterParam(e: Particle): (r: Result<EmitterParams, ParticleError>)
    ensures r == Err(NotImplemented)
  {
    Err(NotImplemented)
  }

  function GetDescriptorCount(e: Particle): nat
  {
    |e.descriptors|
  }

  /** `AddParticle(particle)`: appends one descriptor at the end. */
  function AddParticle(e: Particle, p: ParticleParams): (r: Particle)
    ensures GetDescriptorCount(r) == GetDescriptorCount(e) + 1
    ensures r.descriptors[..GetDescriptorCount(e)] == e.descriptors
    ensures r.descriptors[GetDescriptorCount(e)] == p
  {
    Particle(e.descriptors + [p])
  }

  /** `AddParticle(position, velocity)`. */
  function AddParticleAt(e: Particle, position: Real3, velocity: Real3): (r: Particle)
    ensures r == AddParticle(e, ParticleParams(position, velocity))
  {
    Particle(e.descriptors + [ParticleParams(position, velocity)])
  }

  /** `ClearDescriptors`. */
  function ClearDescriptors(e: Particle): (r: Particle)
    ensures GetDescriptorCount(r) == 0
  {
    Particle([])
  }

  /** `GetDescriptors(buffer)`: copies descriptor `i` to `buffer[i]` in index order;
      the buffer's indexer throws once `i` reaches its length. */
  method GetDescriptors(e: Particle, buffer: seq<ParticleParams>) returns (r: Result<seq<ParticleParams>, ParticleError>)
    ensures r.Ok? <==> GetDescriptorCount(e) <= |buffer|
    ensures r.Err? ==> r.error == IndexOutOfRange(|buffer|)
    ensures r.Ok? ==> |r.value| == |buffer|
    ensures r.Ok? ==> r.value[..GetDescriptorCount(e)] == e.descriptors
    ensures r.Ok? ==> r.value[GetDescriptorCount(e)..] == buffer[GetDescriptorCount(e)..]
  {
    var out := buffer;
    var i := 0;
    while i < |e.descriptors|
      invariant 0 <= i <= |e.descriptors|
      invariant i <= |buffer|
      invariant |out| == |buffer|
      invariant out[..i] == e.descriptors[..i]
      invariant out[i..] == buffer[i..]
    {
      if i >= |out| {
        return Err(IndexOutOfRange(i));
      }
      out := out[i := e.descriptors[i]];
      i := i + 1;
    }
    return Ok(out);
  }
}
