/** `TextureUtilCompute` (TextureUtilCompute.cs): the clear kernel's dispatch. The
    command the method records is returned as a value. */
module TextureUtil {
  import opened IntMath
  import opened Vectors
  import RenderUtilities

  const BlitMipGroupSizeX: nat := 8
  const BlitMipGroupSizeY: nat := 8
  const BlitMipGroupSizeZ: nat := 8
  const BlitKernelSize: nat := 8
  const ClearKernelSize: nat := 8

  /** A recorded clear: the destination texture and mip bound to the kernel, the clear
      value, and the thread groups dispatched along width, height and depth. */
  datatype ClearCommand = ClearCommand(destination: RenderUtilities.VolumeRT, destinationMip: int, value: real, groups: Int3)

  /** The extent `volume.width >> mip` (and likewise height, depth) of a mip level,
      with the C# shift-count masking. */
  function MipExtent(v: RenderUtilities.VolumeRT, mip: int): (e: Int3)
    ensures e.NonNegative()
  {
    ShiftRightNonNegative(v.width, mip);
    ShiftRightNonNegative(v.height, mip);
    ShiftRightNonNegative(v.volumeDepth, mip);
    Int3(ShiftRight(v.width, mip), ShiftRight(v.height, mip), ShiftRight(v.volumeDepth, mip))
  }

  /** `g` groups of `ClearKernelSize` threads fit inside `extent`, and one more would not. */
  predicate LargestFit(g: int, extent: int)
  {
    g * ClearKernelSize <= extent < (g + 1) * ClearKernelSize
  }

  /** `ClearVolume(cmd, volume, value, mip)`. On every axis the dispatch is the largest
      group count whose threads stay inside the mip's extent, so the threads cover the
      mip exactly when each extent is a multiple of 8, and an extent below 8 gets no group. */
  function ClearVolume(volume: RenderUtilities.VolumeRT, value: real, mip: int := 0): (c: ClearCommand)
    ensures c.destination == volume && c.destinationMip == mip && c.value == value
    ensures forall a: Axis :: LargestFit(c.groups.Get(a), MipExtent(volume, mip).Get(a))
    ensures forall a: Axis ::
      (c.groups.Get(a) * ClearKernelSize == MipExtent(volume, mip).Get(a)) <==> MipExtent(volume, mip).Get(a) % 8 == 0
    ensures forall a: Axis :: MipExtent(volume, mip).Get(a) < 8 ==> c.groups.Get(a) == 0
  {
    var e := MipExtent(volume, mip);
    Int3DivFit(e);
    ClearCommand(volume, mip, value, e.Div(ClearKernelSize))
  }

  lemma Int3DivFit(e: Int3)
    requires e.NonNegative()
    ensures forall a: Axis :: LargestFit(e.Div(8).Get(a), e.Get(a))
  {
  }

  /** For the mips a texture can have (`mip < 32`), the cleared extent is the base
      extent halved `mip` times on every axis. */
  lemma MipExtentIsHalving(v: RenderUtilities.VolumeRT, mip: nat)
    requires mip < 32
    ensures MipExtent(v, mip) == Int3(HalveTimes(v.width, mip), HalveTimes(v.height, mip), HalveTimes(v.volumeDepth, mip))
  {
    ShiftRightIsHalving(v.width, mip);
    ShiftRightIsHalving(v.height, mip);
    ShiftRightIsHalving(v.volumeDepth, mip);
  }
}
