/** `ARenderUtilities` (ARenderUtilities.cs): the full-screen triangle, the mapping
    between a 3D render texture's dimensions and a physical volume size, and
    capacity-reserving compute-buffer allocation. GPU resources are abstract records. */
module RenderUtilities {
  import opened Wrappers
  import opened Vectors

  /** A Unity `GraphicsFormat`, by name. */
  datatype GraphicsFormat = R8SNorm | R8UNorm | R16UInt | R32SFloat | OtherFormat(id: nat)

  /** The parts of a 3D `RenderTexture` the model tracks. `created` is `IsCreated()`. */
  datatype VolumeRT = VolumeRT(
    format: GraphicsFormat,
    width: nat, height: nat, volumeDepth: nat,
    mipCount: nat, useMipMap: bool, autoGenerateMips: bool, enableRandomWrite: bool,
    created: bool)

  /** `GetVolumeRTSize`: physical size (x, y, z) of a volume; y is the depth slice axis. */
  function GetVolumeRTSize(v: VolumeRT): Int3
  {
    Int3(v.width, v.volumeDepth, v.height)
  }

  /** `CreateRWVolumeRT(format, size, mipCount)`: asserts a positive mip count, stores x as
      width, z as height and y as depth, and creates the texture. */
  function CreateRWVolumeRT(format: GraphicsFormat, size: Int3, mipCount: int := 1): (r: VolumeRT)
    requires mipCount > 0
    requires size.NonNegative()
    ensures GetVolumeRTSize(r) == size
    ensures r.format == format && r.mipCount == mipCount
    ensures r.useMipMap <==> mipCount > 1
    ensures !r.autoGenerateMips && r.enableRandomWrite && r.created
  {
    VolumeRT(format, size.x, size.z, size.y, mipCount, mipCount > 1, false, true, true)
  }

  /** `RenderTexture.Release()`: the object survives, its GPU storage does not. */
  function ReleaseVolume(v: VolumeRT): (r: VolumeRT)
    ensures !r.created && r.(created := v.created) == v
  {
    v.(created := false)
  }

  datatype BufferType = DefaultBuffer | ConstantBuffer | IndirectArguments | StructuredBuffer
  datatype BufferMode = Immutable | Dynamic | SubUpdates

  /** The parts of a `ComputeBuffer` the model tracks. `valid` is `IsValid()`. */
  datatype ComputeBuffer = ComputeBuffer(count: int, stride: int, bufferType: BufferType, mode: BufferMode, valid: bool)

  /** `new ComputeBuffer(count, stride, type, mode)`. */
  function NewComputeBuffer(count: int, stride: int, bufferType: BufferType, mode: BufferMode): (r: ComputeBuffer)
    ensures r.count == count && r.stride == stride && r.valid
  {
    ComputeBuffer(count, stride, bufferType, mode, true)
  }

  /** `ComputeBuffer.Release()`. */
  function ReleaseBuffer(b: ComputeBuffer): (r: ComputeBuffer)
    ensures !r.valid && r.(valid := b.valid) == b
  {
    b.(valid := false)
  }

  /** The outcome of `ReserveComputeBuffer`: the buffer left in the `ref` slot, the
      returned flag, and the old buffer if it was released. */
  datatype Reservation = Reservation(buffer: ComputeBuffer, newlyAllocated: bool, released: Option<ComputeBuffer>)

  /** `ReserveComputeBuffer(ref buffer, capacity, stride, type, mode)`; `None` is `null`. */
  function ReserveComputeBuffer(buffer: Option<ComputeBuffer>, capacity: int, stride: int,
                                bufferType: BufferType, mode: BufferMode): (r: Reservation)
    ensures buffer.None? ==> r.newlyAllocated && r.released.None?
    ensures !r.newlyAllocated <==>
      buffer.Some? && buffer.value.count >= capacity && buffer.value.stride == stride && buffer.value.valid
    ensures !r.newlyAllocated ==> r.buffer == buffer.value && r.released.None?
    ensures r.newlyAllocated ==>
      && r.buffer.count == capacity && r.buffer.bufferType == bufferType && r.buffer.mode == mode
      && r.released == (if buffer.Some? then Some(ReleaseBuffer(buffer.value)) else None)
    ensures r.buffer.count >= capacity && r.buffer.stride == stride && r.buffer.valid
  {
    if buffer.None? then
      Reservation(NewComputeBuffer(capacity, stride, bufferType, mode), true, None)
    else if buffer.value.count >= capacity && buffer.value.stride == stride && buffer.value.valid then
      Reservation(buffer.value, false, None)
    else
      Reservation(NewComputeBuffer(capacity, stride, bufferType, mode), true, Some(ReleaseBuffer(buffer.value)))
  }

  /** Reserving again with the same or a smaller capacity and the same stride keeps the buffer. */
  lemma ReserveIsIdempotent(buffer: Option<ComputeBuffer>, capacity: int, smaller: int, stride: int,
                            bufferType: BufferType, mode: BufferMode)
    requires smaller <= capacity
    ensures var first := ReserveComputeBuffer(buffer, capacity, stride, bufferType, mode);
      var second := ReserveComputeBuffer(Some(first.buffer), smaller, stride, bufferType, mode);
      !second.newlyAllocated && second.buffer == first.buffer
  {
  }

  /** Clip-space positions and texture coordinates. */
  datatype Real2 = Real2(x: real, y: real)

  datatype Mesh = Mesh(vertices: seq<Real2>, triangles: seq<nat>, uvs: seq<Real2>)

  /** The texture coordinate of a clip-space point: x from [-1, 1] to [0, 1], y flipped. */
  function ClipToUV(p: Real2): Real2
  {
    Real2((p.x + 1.0) / 2.0, (1.0 - p.y) / 2.0)
  }

  /** The point with barycentric weights `a`, `b`, `c` over three points. */
  function Interpolate(t: seq<Real2>, a: real, b: real, c: real): Real2
    requires |t| == 3
  {
    Real2(a * t[0].x + b * t[1].x + c * t[2].x, a * t[0].y + b * t[1].y + c * t[2].y)
  }

  /** Twice the signed area of (a, b, p); its sign says which side of a->b the point p is on. */
  function Edge(a: Real2, b: Real2, p: Real2): real
  {
    (b.x - a.x) * (p.y - a.y) - (b.y - a.y) * (p.x - a.x)
  }

  /** `p` lies inside or on the clockwise triangle `t`. */
  predicate InTriangle(t: seq<Real2>, p: Real2)
    requires |t| == 3
  {
    Edge(t[0], t[1], p) <= 0.0 && Edge(t[1], t[2], p) <= 0.0 && Edge(t[2], t[0], p) <= 0.0
  }

  predicate InClipSquare(p: Real2)
  {
    -1.0 <= p.x <= 1.0 && -1.0 <= p.y <= 1.0
  }

  /** `FullScreenMesh`: one triangle whose vertex texture coordinates follow `ClipToUV`,
      so the interpolated coordinate at every point is `ClipToUV` of that point, and
      which covers the whole clip-space square. */
  function FullScreenMesh(): (m: Mesh)
    ensures |m.vertices| == 3 && |m.uvs| == 3 && m.triangles == [0, 1, 2]
    ensures forall i :: 0 <= i < 3 ==> m.uvs[i] == ClipToUV(m.vertices[i])
    ensures forall a: real, b: real, c: real :: a + b + c == 1.0 ==>
      Interpolate(m.uvs, a, b, c) == ClipToUV(Interpolate(m.vertices, a, b, c))
    ensures forall p :: InClipSquare(p) ==> InTriangle(m.vertices, p)
  {
    Mesh([Real2(-1.0, -1.0), Real2(-1.0, 3.0), Real2(3.0, -1.0)],
         [0, 1, 2],
         [Real2(0.0, 1.0), Real2(0.0, -1.0), Real2(2.0, 1.0)])
  }
}
