/** `SDFGenerator.CreateSDFTexture3D` (SDFGenerator.cs): samples a distance function on
    the integer grid points of a box and quantises each distance to one byte of an
    `R8_SNorm` 3D texture. Distances are `real`s (float rounding is not modelled); the
    distance function is a parameter. */
module SDFGenerator {
  import opened IntMath
  import opened Vectors
  import RU = RenderUtilities

  /** `SDFSupremum`, the largest distance the scene volume represents. */
  const SDFSupremum: real := 4.0

  /** One quantisation step: the range `[-SDFSupremum, SDFSupremum]` over the 255 steps
      between `byte.MinValue` and `byte.MaxValue`. */
  const UnitDistance: real := SDFSupremum * 2.0 / 255.0

  const InvUnitDistance: real := 1.0 / UnitDistance

  /** The step is positive and its reciprocal is the scale applied to every distance. */
  lemma UnitDistanceScale()
    ensures UnitDistance > 0.0 && UnitDistance * InvUnitDistance == 1.0
    ensures 255.0 * UnitDistance == 2.0 * SDFSupremum
    ensures InvUnitDistance == 255.0 / 8.0
  {
  }

  /** `value >= 0 ? Mathf.Floor(value) : Mathf.Ceil(value)` followed by `(int)`: rounding
      toward zero. */
  function TruncateTowardZero(v: real): (r: int)
    ensures v >= 0.0 ==> 0 <= r && r as real <= v < r as real + 1.0
    ensures v < 0.0 ==> r <= 0 && r as real - 1.0 < v <= r as real
  {
    if v >= 0.0 then v.Floor else -((-v).Floor)
  }

  /** Truncation toward zero never reverses the order of two values. */
  lemma TruncateMonotone(a: real, b: real)
    requires a <= b
    ensures TruncateTowardZero(a) <= TruncateTowardZero(b)
  {
    var ta, tb := TruncateTowardZero(a), TruncateTowardZero(b);
    if a >= 0.0 {
      assert ta as real <= a <= b < tb as real + 1.0;
    } else if b < 0.0 {
      assert ta as real - 1.0 < a <= b <= tb as real;
    }
  }

  /** The byte stored for distance `d`: scaled, truncated toward zero, then clamped to
      `[byte.MinValue, byte.MaxValue]`. Every distance at or below zero is stored as 0,
      and a positive distance is stored as its whole number of steps, up to 255. */
  function Quantize(d: real): (b: nat)
    ensures b <= 255
    ensures d <= 0.0 ==> b == 0
    ensures 0.0 <= d * InvUnitDistance < 256.0 ==> b as real <= d * InvUnitDistance < b as real + 1.0
    ensures d * InvUnitDistance >= 255.0 ==> b == 255
  {
    Clamp(TruncateTowardZero(d * InvUnitDistance), 0, 255)
  }

  /** Farther points never get smaller bytes. */
  lemma QuantizeMonotone(d1: real, d2: real)
    requires d1 <= d2
    ensures Quantize(d1) <= Quantize(d2)
  {
    TruncateMonotone(d1 * InvUnitDistance, d2 * InvUnitDistance);
  }

  /** The slot of grid point `(i, j, k)`: `k` varies fastest, then `j`, then `i`, as the
      counter `index` advances through the three nested loops. */
  function TexelIndex(sizeY: nat, sizeZ: nat, i: nat, j: nat, k: nat): nat
  {
    (i * sizeY + j) * sizeZ + k
  }

  /** The grid point written at slot `n`. */
  function PointOf(sizeY: nat, sizeZ: nat, n: nat): (nat, nat, nat)
    requires sizeY > 0 && sizeZ > 0
  {
    (n / (sizeY * sizeZ), (n / sizeZ) % sizeY, n % sizeZ)
  }

  /** Quotient and remainder of `q * d + r` for a remainder below `d`. */
  lemma DivModExact(q: nat, r: nat, d: nat)
    requires r < d
    ensures (q * d + r) / d == q && (q * d + r) % d == r
  {
    DivExact(q, r, d);
  }

  lemma MulLe(a: nat, b: nat, c: nat)
    requires a <= b
    ensures a * c <= b * c
  {
  }

  /** `m * d + r < b * d` when `m < b` and `r < d`. */
  lemma MulAddBelow(m: nat, r: nat, d: nat, b: nat)
    requires m < b && r < d
    ensures m * d + r < b * d
  {
    MulLe(m + 1, b, d);
  }

  /** Every point of the box has its own slot inside the array, and the slot decodes back
      to the point, so no two points share a slot. */
  lemma TexelIndexDecodes(sizeX: nat, sizeY: nat, sizeZ: nat, i: nat, j: nat, k: nat)
    requires i < sizeX && j < sizeY && k < sizeZ
    ensures TexelIndex(sizeY, sizeZ, i, j, k) < sizeX * sizeY * sizeZ
    ensures PointOf(sizeY, sizeZ, TexelIndex(sizeY, sizeZ, i, j, k)) == (i, j, k)
  {
    var m := i * sizeY + j;
    var n := m * sizeZ + k;
    assert n == TexelIndex(sizeY, sizeZ, i, j, k);
    DivModExact(m, k, sizeZ);
    DivModExact(i, j, sizeY);
    DivDiv(n, sizeZ, sizeY);
    assert sizeZ * sizeY == sizeY * sizeZ;
    MulAddBelow(i, j, sizeY, sizeX);
    MulAddBelow(m, k, sizeZ, sizeX * sizeY);
  }

  /** Every slot of the array holds some point of the box: together with
      `TexelIndexDecodes`, the loops write each of the `sizeX * sizeY * sizeZ` slots
      exactly once. */
  lemma TexelIndexCovers(sizeX: nat, sizeY: nat, sizeZ: nat, n: nat)
    requires sizeY > 0 && sizeZ > 0 && n < sizeX * sizeY * sizeZ
    ensures var p := PointOf(sizeY, sizeZ, n);
      p.0 < sizeX && p.1 < sizeY && p.2 < sizeZ && TexelIndex(sizeY, sizeZ, p.0, p.1, p.2) == n
  {
    var q := n / sizeZ;
    var k := n % sizeZ;
    var i := q / sizeY;
    var j := q % sizeY;
    assert n == q * sizeZ + k;
    assert q == i * sizeY + j;
    DivDiv(n, sizeZ, sizeY);
    assert sizeZ * sizeY == sizeY * sizeZ;
    assert PointOf(sizeY, sizeZ, n) == (i, j, k);
    if i >= sizeX {
      MulLe(sizeX, i, sizeY);
      MulLe(sizeX * sizeY, q, sizeZ);
      assert false;
    }
  }

  lemma IndexStepsRow(sizeY: nat, sizeZ: nat, i: nat, j: nat)
    ensures TexelIndex(sizeY, sizeZ, i, j, sizeZ) == TexelIndex(sizeY, sizeZ, i, j + 1, 0)
  {
  }

  lemma IndexStepsPlane(sizeY: nat, sizeZ: nat, i: nat)
    ensures TexelIndex(sizeY, sizeZ, i, sizeY, 0) == TexelIndex(sizeY, sizeZ, i + 1, 0, 0)
  {
  }

  /** The texture `CreateSDFTexture3D` returns: its extent, format, mip count and bytes. */
  datatype SDFTexture = SDFTexture(width: nat, height: nat, depth: nat, format: RU.GraphicsFormat,
                                   mipCount: nat, pixels: seq<nat>)

  /** The byte the loops store at slot `n`. */
  function QuantizedAt(sizeY: nat, sizeZ: nat, sdf: Real3 -> real, n: nat): nat
    requires sizeY > 0 && sizeZ > 0
  {
    var p := PointOf(sizeY, sizeZ, n);
    Quantize(sdf(Real3(p.0 as real, p.1 as real, p.2 as real)))
  }

  /** Slots `0..upto` hold their quantised distances. */
  predicate Filled(values: seq<nat>, sizeY: nat, sizeZ: nat, sdf: Real3 -> real, upto: nat)
    requires sizeY > 0 && sizeZ > 0
  {
    upto <= |values| && forall n :: 0 <= n < upto ==> values[n] == QuantizedAt(sizeY, sizeZ, sdf, n)
  }

  /** Storing the quantised distance of the next slot extends the filled prefix by one. */
  lemma FilledStep(values: seq<nat>, sizeY: nat, sizeZ: nat, sdf: Real3 -> real, n: nat)
    requires sizeY > 0 && sizeZ > 0 && n < |values| && Filled(values, sizeY, sizeZ, sdf, n)
    ensures Filled(values[n := QuantizedAt(sizeY, sizeZ, sdf, n)], sizeY, sizeZ, sdf, n + 1)
  {
  }

  /** The innermost loop, over `k` for fixed `i` and `j`. */
  method FillRow(values: seq<nat>, sizeX: nat, sizeY: nat, sizeZ: nat, sdf: Real3 -> real, i: nat, j: nat)
    returns (r: seq<nat>)
    requires sizeY > 0 && sizeZ > 0 && i < sizeX && j < sizeY && |values| == sizeX * sizeY * sizeZ
    requires Filled(values, sizeY, sizeZ, sdf, TexelIndex(sizeY, sizeZ, i, j, 0))
    ensures |r| == |values| && Filled(r, sizeY, sizeZ, sdf, TexelIndex(sizeY, sizeZ, i, j + 1, 0))
  {
    r := values;
    var index := TexelIndex(sizeY, sizeZ, i, j, 0);
    var k := 0;
    while k < sizeZ
      invariant 0 <= k <= sizeZ && |r| == |values|
      invariant index == TexelIndex(sizeY, sizeZ, i, j, k)
      invariant Filled(r, sizeY, sizeZ, sdf, index)
    {
      TexelIndexDecodes(sizeX, sizeY, sizeZ, i, j, k);
      var value := sdf(Real3(i as real, j as real, k as real)) * InvUnitDistance;
      var old_r := r;
      r := r[index := Clamp(TruncateTowardZero(value), 0, 255)];
      FilledStep(old_r, sizeY, sizeZ, sdf, index);
      index := index + 1;
      k := k + 1;
    }
    IndexStepsRow(sizeY, sizeZ, i, j);
  }

  /** `CreateSDFTexture3D(sizeX, sizeY, sizeZ, sdf)`: an `R8_SNorm` texture of the given
      extent whose byte for grid point `(i, j, k)` is the quantised distance there, stored
      at slot `(i * sizeY + j) * sizeZ + k`. The texture constructor demands positive
      extents. */
  method CreateSDFTexture3D(sizeX: nat, sizeY: nat, sizeZ: nat, sdf: Real3 -> real) returns (t: SDFTexture)
    requires sizeX > 0 && sizeY > 0 && sizeZ > 0
    ensures t.width == sizeX && t.height == sizeY && t.depth == sizeZ
    ensures t.format == RU.R8SNorm && t.mipCount == 0
    ensures |t.pixels| == sizeX * sizeY * sizeZ
    ensures forall n :: 0 <= n < |t.pixels| ==> t.pixels[n] == QuantizedAt(sizeY, sizeZ, sdf, n)
    ensures forall i: nat, j: nat, k: nat :: i < sizeX && j < sizeY && k < sizeZ ==>
      TexelIndex(sizeY, sizeZ, i, j, k) < |t.pixels| &&
      t.pixels[TexelIndex(sizeY, sizeZ, i, j, k)] == Quantize(sdf(Real3(i as real, j as real, k as real)))
  {
    var values: seq<nat> := seq(sizeX * sizeY * sizeZ, _ => 0);
    var i := 0;
    while i < sizeX
      invariant 0 <= i <= sizeX && |values| == sizeX * sizeY * sizeZ
      invariant Filled(values, sizeY, sizeZ, sdf, TexelIndex(sizeY, sizeZ, i, 0, 0))
    {
      var j := 0;
      while j < sizeY
        invariant 0 <= j <= sizeY && |values| == sizeX * sizeY * sizeZ
        invariant Filled(values, sizeY, sizeZ, sdf, TexelIndex(sizeY, sizeZ, i, j, 0))
      {
        values := FillRow(values, sizeX, sizeY, sizeZ, sdf, i, j);
        j := j + 1;
      }
      IndexStepsPlane(sizeY, sizeZ, i);
      i := i + 1;
    }
    assert TexelIndex(sizeY, sizeZ, sizeX, 0, 0) == sizeX * sizeY * sizeZ;
    t := SDFTexture(sizeX, sizeY, sizeZ, RU.R8SNorm, 0, values);
    forall i: nat, j: nat, k: nat | i < sizeX && j < sizeY && k < sizeZ
      ensures TexelIndex(sizeY, sizeZ, i, j, k) < |t.pixels|
      ensures t.pixels[TexelIndex(sizeY, sizeZ, i, j, k)] == Quantize(sdf(Real3(i as real, j as real, k as real)))
    {
      TexelIndexDecodes(sizeX, sizeY, sizeZ, i, j, k);
    }
  }

  // ---- the signed encoding the texture format expects ----

  /** The level an `R8_SNorm` texel holds: its byte read as a two's-complement `sbyte`. */
  function SNormLevel(b: nat): int
    requires b <= 255
  {
    if b >= 128 then b - 256 else b
  }

  /** A negative distance is stored exactly like the surface itself: both read back as
      level 0 from the signed format, so inside and outside cannot be told apart. */
  lemma QuantizeLosesSign()
    ensures Quantize(-UnitDistance) == Quantize(0.0) == 0
    ensures SNormLevel(Quantize(-SDFSupremum)) == 0
  {
  }

  /** The byte as evidently intended for a signed format: the truncated level clamped to
      the symmetric range `[-127, 127]` and stored in two's complement. */
  function QuantizeSigned(d: real): (b: nat)
    ensures b <= 255
    ensures SNormLevel(b) == Clamp(TruncateTowardZero(d * InvUnitDistance), -127, 127)
  {
    var level := Clamp(TruncateTowardZero(d * InvUnitDistance), -127, 127);
    if level < 0 then level + 256 else level
  }

  /** The signed byte keeps the sign of every distance of at least one step, reads back
      within one step of the scaled distance inside the representable range, and agrees
      with the source's byte wherever the distance is non-negative and in range. */
  lemma QuantizeSignedKeepsSign(d: real)
    ensures d * InvUnitDistance <= -1.0 ==> SNormLevel(QuantizeSigned(d)) < 0
    ensures d * InvUnitDistance >= 1.0 ==> SNormLevel(QuantizeSigned(d)) > 0
    ensures -127.0 < d * InvUnitDistance < 127.0 ==>
      var l := SNormLevel(QuantizeSigned(d)) as real;
      l - 1.0 < d * InvUnitDistance < l + 1.0
    ensures 0.0 <= d * InvUnitDistance < 128.0 ==> QuantizeSigned(d) == Quantize(d)
  {
  }
}
