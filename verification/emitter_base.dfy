/** `FluidEmitterBase<TEmitterProperty, TParticleProperty>` (FluidEmitterBase.cs): the
    byte count an emitter reports, and the bytes `GetProperties` appends through the
    two typed data builders. A property value is the `sizeof(T)` bytes of its struct,
    so the hooks a subclass overrides become the lists of values they add. */
module FluidEmitterBase {
  import opened Wrappers
  import IntMath

  type byte = bv8

  /** The two struct sizes a concrete emitter class fixes. */
  datatype PropertyLayout = PropertyLayout(emitterPropertySize: nat, particlePropertySize: nat)

  /** What the constructor asserts: both sizes are multiples of 4 bytes. */
  predicate ValidLayout(layout: PropertyLayout)
  {
    layout.emitterPropertySize % 4 == 0 && layout.particlePropertySize % 4 == 0
  }

  /** `PropertyByteCount`: one emitter property plus one particle property per particle. */
  function PropertyByteCount(layout: PropertyLayout, particleCount: nat): (r: nat)
    ensures ValidLayout(layout) ==> r % 4 == 0
    ensures r >= layout.emitterPropertySize
    ensures particleCount > 0 ==> r >= layout.particlePropertySize
  {
    MultipleOfFour(layout.particlePropertySize, particleCount);
    AtLeastOnce(layout.particlePropertySize, particleCount);
    layout.emitterPropertySize + particleCount * layout.particlePropertySize
  }

  lemma MultipleOfFour(size: nat, count: nat)
    ensures size % 4 == 0 ==> (count * size) % 4 == 0
  {
    if size % 4 == 0 {
      assert count * size == 4 * (count * (size / 4));
    }
  }

  lemma AtLeastOnce(size: nat, count: nat)
    ensures count > 0 ==> count * size >= size
  {
    if count > 0 && size > 0 {
      IntMath.MulSign(count, size);
    }
  }

  /** A value handed to `AddProperty`: the bytes of a `T`, or the empty
      `NullFluidEmitterProperty` marker struct. */
  datatype PropertyValue = Value(bytes: seq<byte>) | NullProperty

  /** `sizeof` of the value's struct. The marker is declared with `Size = 0`, but C#
      gives every struct, the empty one included, a `sizeof` of at least 1. */
  function SizeOf(p: PropertyValue): nat
  {
    if p.Value? then |p.bytes| else 1
  }

  /** The bytes the generic `AddProperty(T)` copies out of the value: the marker's one
      byte is the zeroed padding of its `default` value. */
  function ValueBytes(p: PropertyValue): (r: seq<byte>)
    ensures |r| == SizeOf(p)
  {
    if p.Value? then p.bytes else [0]
  }

  datatype EmitterError = NoEmitterPropertyProvided

  /** `FluidEmitterDataBuilder<T>.AddProperty` called directly on the overload set: the
      generic overload appends the value's bytes to the shared buffer, and the
      `NullFluidEmitterProperty` overload throws. */
  function AddProperty(buffer: seq<byte>, p: PropertyValue): (r: Result<seq<byte>, EmitterError>)
    ensures p.NullProperty? <==> r.Err?
    ensures r.Ok? ==> |r.value| == |buffer| + |p.bytes|
    ensures r.Ok? ==> r.value[..|buffer|] == buffer && r.value[|buffer|..] == p.bytes
  {
    match p
    case NullProperty => Err(NoEmitterPropertyProvided)
    case Value(bytes) => Ok(buffer + bytes)
  }

  /** `IFluidEmitterDataBuilder<T>.AddProperty`, the only method a hook can reach: the
      interface maps to the generic overload, so every value, the marker included,
      has its `sizeof` bytes appended and nothing throws. */
  function AddPropertyGeneric(buffer: seq<byte>, p: PropertyValue): (r: seq<byte>)
    ensures |r| == |buffer| + SizeOf(p) && r[..|buffer|] == buffer
    ensures p.Value? ==> AddProperty(buffer, p) == Ok(r)
    ensures p.NullProperty? ==> r[|buffer|] == 0
  {
    buffer + ValueBytes(p)
  }

  predicate AllValues(ps: seq<PropertyValue>)
  {
    forall i :: 0 <= i < |ps| ==> ps[i].Value?
  }

  /** Every value is a `T` of `size` bytes. */
  predicate WellSized(ps: seq<PropertyValue>, size: nat)
  {
    forall i :: 0 <= i < |ps| ==> SizeOf(ps[i]) == size
  }

  function Bytes(ps: seq<PropertyValue>): seq<byte>
  {
    if |ps| == 0 then [] else ValueBytes(ps[0]) + Bytes(ps[1..])
  }

  /** A run of direct calls on the overload set, in order. */
  function AddAllProperties(buffer: seq<byte>, ps: seq<PropertyValue>): (r: Result<seq<byte>, EmitterError>)
    ensures r.Ok? <==> AllValues(ps)
    ensures r.Ok? ==> r.value == buffer + Bytes(ps)
    decreases |ps|
  {
    if |ps| == 0 then
      Ok(buffer)
    else
      match AddProperty(buffer, ps[0])
      case Err(e) => Err(e)
      case Ok(b1) =>
        var r := AddAllProperties(b1, ps[1..]);
        assert forall i :: 1 <= i < |ps| ==> ps[i] == ps[1..][i - 1];
        r
  }

  /** One builder receiving, through its interface, the values a hook adds in order. */
  function AddAllGeneric(buffer: seq<byte>, ps: seq<PropertyValue>): (r: seq<byte>)
    ensures r == buffer + Bytes(ps)
    ensures AllValues(ps) ==> AddAllProperties(buffer, ps) == Ok(r)
    decreases |ps|
  {
    if |ps| == 0 then
      buffer
    else
      var b1 := AddPropertyGeneric(buffer, ps[0]);
      var r := AddAllGeneric(b1, ps[1..]);
      assert r == buffer + (ValueBytes(ps[0]) + Bytes(ps[1..]));
      assert AllValues(ps) ==> AllValues(ps[1..]) && AddProperty(buffer, ps[0]) == Ok(b1) by {
        if AllValues(ps) {
          forall i | 0 <= i < |ps[1..]| ensures ps[1..][i].Value? {
            assert ps[1..][i] == ps[i + 1];
          }
        }
      }
      r
  }

  /** What a subclass's two hooks add; the default hooks add nothing. */
  datatype Hooks = Hooks(emitterProperties: seq<PropertyValue>, particleProperties: seq<PropertyValue>)

  const DefaultHooks := Hooks([], [])

  /** `GetProperties`: the emitter builder first, then the particle builder, on the same
      buffer. The hooks hold the builders only as `IFluidEmitterDataBuilder<T>`. */
  function GetProperties(buffer: seq<byte>, hooks: Hooks): (r: seq<byte>)
    ensures r == buffer + Bytes(hooks.emitterProperties) + Bytes(hooks.particleProperties)
    ensures AllValues(hooks.emitterProperties) && AllValues(hooks.particleProperties) ==>
      AddAllProperties(AddAllProperties(buffer, hooks.emitterProperties).value, hooks.particleProperties) == Ok(r)
    ensures hooks == DefaultHooks ==> r == buffer
  {
    AddAllGeneric(AddAllGeneric(buffer, hooks.emitterProperties), hooks.particleProperties)
  }

  /** A hook that adds the marker does not reach the throwing overload: one zero byte is
      appended, where a direct call on the overload set fails. */
  lemma NullPropertyThroughHookAppendsByte(buffer: seq<byte>)
    ensures GetProperties(buffer, Hooks([NullProperty], [])) == buffer + [0]
    ensures AddProperty(buffer, NullProperty).Err?
  {
    assert Bytes([NullProperty]) == [0];
  }

  lemma {:induction false} BytesLength(ps: seq<PropertyValue>, size: nat)
    requires WellSized(ps, size)
    ensures |Bytes(ps)| == |ps| * size
    decreases |ps|
  {
    if |ps| > 0 {
      assert WellSized(ps[1..], size) by {
        forall i | 0 <= i < |ps[1..]| ensures SizeOf(ps[1..][i]) == size {
          assert ps[1..][i] == ps[i + 1];
        }
      }
      BytesLength(ps[1..], size);
    }
  }

  /** A subclass that adds one emitter property and one particle property per particle
      appends exactly `PropertyByteCount` bytes, and earlier bytes stay as they were. */
  lemma GetPropertiesAppendsByteCount(layout: PropertyLayout, buffer: seq<byte>, hooks: Hooks, particleCount: nat)
    requires |hooks.emitterProperties| == 1 && WellSized(hooks.emitterProperties, layout.emitterPropertySize)
    requires |hooks.particleProperties| == particleCount
    requires WellSized(hooks.particleProperties, layout.particlePropertySize)
    ensures |GetProperties(buffer, hooks)| == |buffer| + PropertyByteCount(layout, particleCount)
    ensures GetProperties(buffer, hooks)[..|buffer|] == buffer
  {
    BytesLength(hooks.emitterProperties, layout.emitterPropertySize);
    BytesLength(hooks.particleProperties, layout.particlePropertySize);
    var e, p := Bytes(hooks.emitterProperties), Bytes(hooks.particleProperties);
    assert |e| == layout.emitterPropertySize && |p| == particleCount * layout.particlePropertySize;
    var r := GetProperties(buffer, hooks);
    assert r == buffer + e + p;
    assert |r| == |buffer| + |e| + |p|;
  }

  /** The default `ClearParticles` is a no-op and the default `ClearEmitter` only
      calls it, so both leave an emitter's state unchanged. */
  function ClearParticlesDefault<S>(state: S): (r: S)
  {
    state
  }

  function ClearEmitterDefault<S>(state: S): (r: S)
    ensures r == state
  {
    ClearParticlesDefault(state)
  }
}
