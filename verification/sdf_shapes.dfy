/** The SDF brush shapes (SDFShapes.cs) and the brush-type enumeration they report
    (`SDFBrushType`, declared in SDFBrushProperty.cs). Float fields are `real`s. */
module SDFShapes {
  import opened Wrappers
  import opened Vectors

  /** `enum SDFBrushType { Numerical, Sphere, Cube }`. */
  datatype SDFBrushType = NumericalBrush | SphereBrush | CubeBrush
  {
    /** The enum's underlying value, which `(uint)` casts store. */
    function Ordinal(): nat
    {
      match this
      case NumericalBrush => 0
      case SphereBrush => 1
      case CubeBrush => 2
    }
  }

  /** The enum member with a given underlying value, if any. */
  function BrushTypeOf(ordinal: nat): (r: Option<SDFBrushType>)
    ensures r.Some? <==> ordinal < 3
    ensures r.Some? ==> r.value.Ordinal() == ordinal
  {
    if ordinal == 0 then Some(NumericalBrush)
    else if ordinal == 1 then Some(SphereBrush)
    else if ordinal == 2 then Some(CubeBrush)
    else None
  }

  /** Distinct enum members store distinct values, and the value names the member back. */
  lemma OrdinalRoundTrip(t: SDFBrushType)
    ensures BrushTypeOf(t.Ordinal()) == Some(t)
  {
  }

  const FloatSize: nat := 4

  /** `Numerical { Vector3 Offset; Vector3 Size; }`, `Sphere { float Radius; }`,
      `Cube { Vector3 Size; }`, each with `Pack = 1`. */
  datatype Shape =
    | Numerical(offset: Real3, size: Real3)
    | Sphere(radius: real)
    | Cube(cubeSize: Real3)
  {
    /** `sizeof` of the shape's struct. */
    function StructSize(): nat
    {
      match this
      case Numerical(_, _) => 24
      case Sphere(_) => 4
      case Cube(_) => 12
    }

    /** The `ParameterCount` each shape declares. */
    function ParameterCount(): nat
    {
      match this
      case Numerical(_, _) => 6
      case Sphere(_) => 1
      case Cube(_) => 3
    }

    /** The `BrushType` each shape reports. */
    function BrushType(): SDFBrushType
    {
      match this
      case Numerical(_, _) => NumericalBrush
      case Sphere(_) => SphereBrush
      case Cube(_) => CubeBrush
    }

    /** `GetParameters(dest)`: the struct's floats in field order. */
    function GetParameters(): seq<real>
    {
      match this
      case Numerical(o, s) => [o.x, o.y, o.z, s.x, s.y, s.z]
      case Sphere(r) => [r]
      case Cube(s) => [s.x, s.y, s.z]
    }
  }

  /** `GetParameterCount<T>()`: `sizeof(T) / sizeof(float)`. */
  function GetParameterCount(structSize: nat): (r: nat)
    ensures r * FloatSize <= structSize < (r + 1) * FloatSize
  {
    structSize / FloatSize
  }

  /** Every shape's declared parameter count is its struct's float count and the number of
      floats it stores, and its brush type is the one for its kind. */
  lemma ShapeCountsAgree(s: Shape)
    ensures s.ParameterCount() == GetParameterCount(s.StructSize()) == |s.GetParameters()|
    ensures s.StructSize() == FloatSize * s.ParameterCount()
    ensures s.BrushType() == NumericalBrush <==> s.Numerical?
    ensures s.BrushType() == SphereBrush <==> s.Sphere?
    ensures s.BrushType() == CubeBrush <==> s.Cube?
  {
  }

  /** A numerical shape's parameters start with its `Offset` and end with its `Size`. */
  function NumericalFromParameters(p: seq<real>): (s: Shape)
    requires |p| == 6
    ensures s.Numerical? && s.GetParameters() == p
  {
    Numerical(Real3(p[0], p[1], p[2]), Real3(p[3], p[4], p[5]))
  }
}
