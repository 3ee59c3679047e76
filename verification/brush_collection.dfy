/** `SDFBrushCollection.GatherBrushes` (SDFBrushCollection.cs): the brushes of a scene
    with their parameter counts and offsets, the flat parameter array, and the numerical
    brushes' atlas. Each brush helper in the scene is an input record; the atlas the
    brushes are packed into is built elsewhere and enters as the offsets it reports. */
module BrushCollection {
  import opened IntMath
  import opened Vectors
  import opened SeqOps
  import SDFShapes
  import SDFGeneration
  import RU = RenderUtilities

  /** An `SDFBrushHelper`: its transform and material, its shape, and the texture a
      numerical shape samples (an opaque handle). */
  datatype BrushHelper = BrushHelper(worldToLocal: seq<real>, scaleInv: real, materialID: UInt32,
                                     shape: SDFShapes.Shape, texture: nat)

  /** `GetBrushProperty`: the property built from the helper's shape, numerical or not. */
  function HelperProperty(h: BrushHelper): (p: SDFGeneration.BrushProperty)
    ensures p.brushType == h.shape.BrushType() && p.materialID == h.materialID
  {
    SDFGeneration.BrushProperty(h.worldToLocal, h.scaleInv, h.shape.BrushType(), h.materialID)
  }

  /** `SDFBrushCollection.Brush`. */
  datatype Brush = Brush(property: SDFGeneration.BrushProperty, parameterCount: int, parameterOffset: int)

  /** The atlas a collection keeps: the one built from its numerical brushes' textures,
      or the 4x4x4 placeholder when it has none. */
  datatype Atlas = PackedAtlas(textures: seq<nat>) | Placeholder(volume: RU.VolumeRT)

  datatype Collection = Collection(numericalBrushAtlas: Atlas, brushes: seq<Brush>, brushParameters: seq<real>)

  /** The reference layout, an exclusive prefix sum: brush `i` starts where the
      parameters of brushes `0..i-1` end, and `ReferenceOffset(helpers, |helpers|)` is
      the total parameter count. */
  function ReferenceOffset(helpers: seq<BrushHelper>, i: nat): int
    requires i <= |helpers|
  {
    if i == 0 then 0 else ReferenceOffset(helpers, i - 1) + helpers[i - 1].shape.ParameterCount()
  }

  predicate BrushesLaidOut(helpers: seq<BrushHelper>, brushes: seq<Brush>)
  {
    && |brushes| == |helpers|
    && forall i :: 0 <= i < |helpers| ==>
         brushes[i] == Brush(HelperProperty(helpers[i]), helpers[i].shape.ParameterCount(), ReferenceOffset(helpers, i))
  }

  /** `data` occupies `parameters` from `offset` on. */
  predicate SliceHolds(parameters: seq<real>, offset: int, data: seq<real>)
  {
    0 <= offset && offset + |data| <= |parameters| && parameters[offset..offset + |data|] == data
  }

  lemma SliceFromEntries(parameters: seq<real>, offset: int, data: seq<real>)
    requires 0 <= offset && offset + |data| <= |parameters|
    requires forall j :: offset <= j < offset + |data| ==> parameters[j] == data[j - offset]
    ensures SliceHolds(parameters, offset, data)
  {
    assert parameters[offset..offset + |data|] == data;
  }

  /** Brush `k`'s parameters sit at its reference offset in `parameters`. */
  predicate BrushSliceHolds(parameters: seq<real>, helpers: seq<BrushHelper>, k: nat)
    requires k < |helpers|
  {
    SliceHolds(parameters, ReferenceOffset(helpers, k), helpers[k].shape.GetParameters())
  }

  /** `numericalIndices` lists, in increasing order, exactly the helpers with a
      numerical shape. */
  predicate NumericalListed(helpers: seq<BrushHelper>, numericalIndices: seq<nat>)
  {
    && (forall k :: 0 <= k < |numericalIndices| ==> numericalIndices[k] < |helpers|)
    && (forall k, l :: 0 <= k < l < |numericalIndices| ==> numericalIndices[k] < numericalIndices[l])
    && (forall i :: 0 <= i < |helpers| ==> (helpers[i].shape.Numerical? <==> i in numericalIndices))
  }

  /** `textures` holds the textures of the listed helpers, in the same order. */
  predicate TexturesListed(helpers: seq<BrushHelper>, numericalIndices: seq<nat>, textures: seq<nat>)
  {
    && |textures| == |numericalIndices|
    && forall k :: 0 <= k < |numericalIndices| ==>
         numericalIndices[k] < |helpers| && textures[k] == helpers[numericalIndices[k]].texture
  }

  /** Reference definition of the numerical brush list: the indices of the numerical
      shapes, in order. */
  function NumericalIndicesOf(helpers: seq<BrushHelper>): (r: seq<nat>)
    ensures |r| <= |helpers|
    ensures forall k :: 0 <= k < |r| ==> r[k] < |helpers|
  {
    if |helpers| == 0 then []
    else
      var n := |helpers| - 1;
      NumericalIndicesOf(helpers[..n]) + (if helpers[n].shape.Numerical? then [n] else [])
  }

  /** The reference list is increasing and lists exactly the numerical helpers. */
  lemma {:induction false} NumericalIndicesListed(helpers: seq<BrushHelper>)
    ensures NumericalListed(helpers, NumericalIndicesOf(helpers))
  {
    if |helpers| > 0 {
      var n := |helpers| - 1;
      var front := helpers[..n];
      NumericalIndicesListed(front);
      var p := NumericalIndicesOf(front);
      var tail: seq<nat> := if helpers[n].shape.Numerical? then [n] else [];
      var r := p + tail;
      assert r == NumericalIndicesOf(helpers);
      forall k, l | 0 <= k < l < |r|
        ensures r[k] < r[l]
      {
        if l < |p| {
          assert r[k] == p[k] && r[l] == p[l];
        } else {
          assert r[k] == p[k] < n && r[l] == n;
        }
      }
      forall i | 0 <= i < |helpers|
        ensures helpers[i].shape.Numerical? <==> i in r
      {
        if i < n {
          assert front[i] == helpers[i];
          assert i !in tail;
          assert i in r <==> i in p;
        } else {
          assert i !in p;
        }
      }
    }
  }

  /** Offsets never decrease: a later brush starts no earlier than an earlier one. */
  lemma {:induction false} OffsetMonotone(helpers: seq<BrushHelper>, k: nat, i: nat)
    requires k <= i <= |helpers|
    ensures ReferenceOffset(helpers, k) <= ReferenceOffset(helpers, i)
    decreases i - k
  {
    if k < i {
      OffsetMonotone(helpers, k, i - 1);
    }
  }

  /** Earlier slices end before later ones start, and every slice ends by the total. */
  lemma {:induction false} SlicesOrdered(helpers: seq<BrushHelper>, k: nat, i: nat)
    requires k < i <= |helpers|
    ensures ReferenceOffset(helpers, k) + helpers[k].shape.ParameterCount() <= ReferenceOffset(helpers, i)
  {
    OffsetMonotone(helpers, k + 1, i);
  }

  lemma {:induction false} OffsetNonNegative(helpers: seq<BrushHelper>, i: nat)
    requires i <= |helpers|
    ensures ReferenceOffset(helpers, i) >= 0
  {
    OffsetMonotone(helpers, 0, i);
  }

  /** The first loop of the "store brushes" block of `GatherBrushes`: each brush is
      recorded with its shape's count and the running total as its offset, and the
      numerical ones are listed with their textures. */
  method LayOutBrushes(helpers: seq<BrushHelper>)
    returns (brushes: seq<Brush>, numericalIndices: seq<nat>, numericalTextures: seq<nat>, total: int)
    ensures BrushesLaidOut(helpers, brushes)
    ensures NumericalListed(helpers, numericalIndices) && TexturesListed(helpers, numericalIndices, numericalTextures)
    ensures numericalIndices == NumericalIndicesOf(helpers)
    ensures total == ReferenceOffset(helpers, |helpers|) >= 0
  {
    brushes, numericalIndices, numericalTextures := [], [], [];
    total := 0;
    var i := 0;
    while i < |helpers|
      invariant 0 <= i <= |helpers|
      invariant LaidOutUpTo(helpers, brushes, i)
      invariant numericalIndices == NumericalIndicesOf(helpers[..i])
      invariant TexturesListed(helpers, numericalIndices, numericalTextures)
      invariant total == ReferenceOffset(helpers, i)
    {
      brushes, numericalIndices, numericalTextures, total :=
        LayOutBrush(helpers, i, brushes, numericalIndices, numericalTextures, total);
      i := i + 1;
    }
    assert helpers[..|helpers|] == helpers;
    OffsetNonNegative(helpers, |helpers|);
    NumericalIndicesListed(helpers);
  }

  /** The first `i` brushes are recorded with their counts and reference offsets. */
  predicate LaidOutUpTo(helpers: seq<BrushHelper>, brushes: seq<Brush>, i: nat)
    requires i <= |helpers|
  {
    && |brushes| == i
    && forall k :: 0 <= k < i ==>
         brushes[k] == Brush(HelperProperty(helpers[k]), helpers[k].shape.ParameterCount(), ReferenceOffset(helpers, k))
  }

  /** One pass of the first loop: brush `i` is recorded at the running total, and listed
      when numerical. */
  method LayOutBrush(helpers: seq<BrushHelper>, i: nat, brushes: seq<Brush>, numericalIndices: seq<nat>,
                     numericalTextures: seq<nat>, total: int)
    returns (brushes': seq<Brush>, numericalIndices': seq<nat>, numericalTextures': seq<nat>, total': int)
    requires i < |helpers| && LaidOutUpTo(helpers, brushes, i)
    requires numericalIndices == NumericalIndicesOf(helpers[..i])
    requires TexturesListed(helpers, numericalIndices, numericalTextures)
    requires total == ReferenceOffset(helpers, i)
    ensures LaidOutUpTo(helpers, brushes', i + 1)
    ensures numericalIndices' == NumericalIndicesOf(helpers[..i + 1])
    ensures TexturesListed(helpers, numericalIndices', numericalTextures')
    ensures total' == ReferenceOffset(helpers, i + 1)
  {
    NumericalIndicesStep(helpers, i);
    var h := helpers[i];
    numericalIndices', numericalTextures' := numericalIndices, numericalTextures;
    if h.shape.Numerical? {
      numericalTextures' := numericalTextures + [h.texture];
      numericalIndices' := numericalIndices + [i];
      TexturesListedStep(helpers, numericalIndices, numericalTextures, i);
    }
    var parameterCount := h.shape.ParameterCount();
    brushes' := brushes + [Brush(HelperProperty(h), parameterCount, total)];
    LaidOutStep(helpers, brushes, i);
    total' := total + parameterCount;
  }

  /** The reference list of the first `i + 1` helpers extends that of the first `i`. */
  lemma NumericalIndicesStep(helpers: seq<BrushHelper>, i: nat)
    requires i < |helpers|
    ensures NumericalIndicesOf(helpers[..i + 1]) ==
      NumericalIndicesOf(helpers[..i]) + (if helpers[i].shape.Numerical? then [i] else [])
  {
    assert helpers[..i + 1][..i] == helpers[..i];
  }

  /** Listing one more helper's texture keeps the textures in step with the indices. */
  lemma TexturesListedStep(helpers: seq<BrushHelper>, indices: seq<nat>, textures: seq<nat>, i: nat)
    requires i < |helpers| && TexturesListed(helpers, indices, textures)
    ensures TexturesListed(helpers, indices + [i], textures + [helpers[i].texture])
  {
  }

  /** Recording brush `i` at its reference offset extends the laid-out prefix. */
  lemma LaidOutStep(helpers: seq<BrushHelper>, brushes: seq<Brush>, i: nat)
    requires i < |helpers| && LaidOutUpTo(helpers, brushes, i)
    ensures LaidOutUpTo(helpers, brushes + [Brush(HelperProperty(helpers[i]), helpers[i].shape.ParameterCount(),
                                                  ReferenceOffset(helpers, i))], i + 1)
  {
    var b := Brush(HelperProperty(helpers[i]), helpers[i].shape.ParameterCount(), ReferenceOffset(helpers, i));
    var brushes' := brushes + [b];
    forall k | 0 <= k < i + 1
      ensures brushes'[k] == Brush(HelperProperty(helpers[k]), helpers[k].shape.ParameterCount(), ReferenceOffset(helpers, k))
    {
      if k < i {
        assert brushes'[k] == brushes[k];
      }
    }
  }

  /** The second loop: each brush's parameters go through the scratch buffer (16 floats,
      regrown when a brush needs more) into the brush's slice. Returns the scratch
      buffer as the loop leaves it. */
  method CopyParameters(helpers: seq<BrushHelper>, brushes: seq<Brush>, total: int)
    returns (parameters: seq<real>, scratch: seq<real>)
    requires BrushesLaidOut(helpers, brushes)
    requires total == ReferenceOffset(helpers, |helpers|)
    ensures |parameters| == total
    ensures forall i :: 0 <= i < |helpers| ==>
      BrushSliceHolds(parameters, helpers, i)
    ensures |scratch| >= 16
    ensures |helpers| > 0 ==>
      var last := helpers[|helpers| - 1].shape.GetParameters();
      |last| <= |scratch| && scratch[..|last|] == last
  {
    OffsetNonNegative(helpers, |helpers|);
    parameters := seq(total, _ => 0.0);
    scratch := seq(16, _ => 0.0);
    var i := 0;
    while i < |helpers|
      invariant 0 <= i <= |helpers|
      invariant |parameters| == total
      invariant |scratch| >= 16
      invariant SlicesHold(parameters, helpers, i)
      invariant i > 0 ==> Prefix(helpers[i - 1].shape.GetParameters(), scratch)
    {
      parameters, scratch := CopyBrush(helpers, brushes, parameters, scratch, i);
      i := i + 1;
    }
  }

  /** The first `n` brushes' slices hold their parameters. */
  predicate SlicesHold(parameters: seq<real>, helpers: seq<BrushHelper>, n: nat)
    requires n <= |helpers|
  {
    forall k :: 0 <= k < n ==> BrushSliceHolds(parameters, helpers, k)
  }

  /** `data` is where `buffer` starts. */
  predicate Prefix(data: seq<real>, buffer: seq<real>)
  {
    |data| <= |buffer| && buffer[..|data|] == data
  }

  /** One pass of the second loop: brush `i`'s parameters through the scratch buffer into
      its slice. */
  method CopyBrush(helpers: seq<BrushHelper>, brushes: seq<Brush>, parameters: seq<real>, scratch: seq<real>, i: nat)
    returns (parameters': seq<real>, scratch': seq<real>)
    requires BrushesLaidOut(helpers, brushes) && i < |helpers|
    requires |parameters| == ReferenceOffset(helpers, |helpers|) && |scratch| >= 16
    requires SlicesHold(parameters, helpers, i)
    ensures |parameters'| == |parameters| && |scratch'| >= 16
    ensures SlicesHold(parameters', helpers, i + 1)
    ensures Prefix(helpers[i].shape.GetParameters(), scratch')
  {
    assert brushes[i].parameterCount == helpers[i].shape.ParameterCount();
    assert brushes[i].parameterOffset == ReferenceOffset(helpers, i);
    var parameterCount := brushes[i].parameterCount;
    var parameterOffset := brushes[i].parameterOffset;
    scratch' := scratch;
    if |scratch'| < parameterCount {
      // the regrow path: no shape has more than 6 parameters, so 16 entries always suffice
      assert false;
    }
    var data := helpers[i].shape.GetParameters();
    SDFShapes.ShapeCountsAgree(helpers[i].shape);
    scratch' := data + scratch'[parameterCount..];
    var copied := scratch'[..parameterCount];
    assert copied == data;
    CopyKeepsEarlierSlices(helpers, parameters, i);
    parameters' := Splice(parameters, parameterOffset, copied);
  }

  /** Copying brush `i` into its slice keeps the slices of the brushes before it. */
  lemma {:induction false} CopyKeepsEarlierSlices(helpers: seq<BrushHelper>, before: seq<real>, i: nat)
    requires i < |helpers|
    requires |before| == ReferenceOffset(helpers, |helpers|)
    requires forall k :: 0 <= k < i ==>
      BrushSliceHolds(before, helpers, k)
    ensures ReferenceOffset(helpers, i) >= 0
    ensures ReferenceOffset(helpers, i) + |helpers[i].shape.GetParameters()| <= |before|
    ensures forall k :: 0 <= k <= i ==>
      BrushSliceHolds(Splice(before, ReferenceOffset(helpers, i), helpers[i].shape.GetParameters()), helpers, k)
  {
    var o, data := ReferenceOffset(helpers, i), helpers[i].shape.GetParameters();
    OffsetNonNegative(helpers, i);
    SlicesOrdered(helpers, i, |helpers|);
    SDFShapes.ShapeCountsAgree(helpers[i].shape);
    var after := Splice(before, o, data);
    forall k | 0 <= k < i
      ensures BrushSliceHolds(after, helpers, k)
    {
      SlicesOrdered(helpers, k, i);
      OffsetNonNegative(helpers, k);
      SDFShapes.ShapeCountsAgree(helpers[k].shape);
      assert BrushSliceHolds(before, helpers, k);
      SpliceKeepsSlice(before, o, data, ReferenceOffset(helpers, k), |helpers[k].shape.GetParameters()|);
    }
  }

  /** Two different brushes' slices share no entry. */
  lemma {:induction false} SlicesApart(helpers: seq<BrushHelper>, a: nat, b: nat, j: int)
    requires a < |helpers| && b < |helpers| && a != b
    requires ReferenceOffset(helpers, a) <= j < ReferenceOffset(helpers, a) + helpers[a].shape.ParameterCount()
    ensures !(ReferenceOffset(helpers, b) <= j < ReferenceOffset(helpers, b) + helpers[b].shape.ParameterCount())
  {
    if a < b {
      SlicesOrdered(helpers, a, b);
    } else {
      SlicesOrdered(helpers, b, a);
    }
  }

  /** Entry `j` lies in the `k`-th patched range. */
  predicate Covers(offsets: seq<int>, datas: seq<seq<real>>, k: nat, j: int)
    requires k < |offsets| && k < |datas|
  {
    offsets[k] <= j < offsets[k] + |datas[k]|
  }

  predicate PatchesFit(parameters: seq<real>, offsets: seq<int>, datas: seq<seq<real>>)
  {
    && |offsets| == |datas|
    && forall k :: 0 <= k < |offsets| ==> 0 <= offsets[k] && offsets[k] + |datas[k]| <= |parameters|
  }

  /** `datas[k]` written over `parameters` from `offsets[k]` on, for `k` in increasing order. */
  function PatchAll(parameters: seq<real>, offsets: seq<int>, datas: seq<seq<real>>): (r: seq<real>)
    requires PatchesFit(parameters, offsets, datas)
    ensures |r| == |parameters|
    decreases |offsets|
  {
    if |offsets| == 0 then parameters
    else
      var n := |offsets| - 1;
      Splice(PatchAll(parameters, offsets[..n], datas[..n]), offsets[n], datas[n])
  }

  /** An entry no range covers keeps its value. */
  lemma {:induction false} PatchAllOutside(parameters: seq<real>, offsets: seq<int>, datas: seq<seq<real>>, j: int)
    requires PatchesFit(parameters, offsets, datas)
    requires 0 <= j < |parameters|
    requires forall k :: 0 <= k < |offsets| ==> !Covers(offsets, datas, k, j)
    ensures PatchAll(parameters, offsets, datas)[j] == parameters[j]
    decreases |offsets|
  {
    if |offsets| > 0 {
      var n := |offsets| - 1;
      forall k | 0 <= k < n
        ensures !Covers(offsets[..n], datas[..n], k, j)
      {
        assert !Covers(offsets, datas, k, j);
      }
      assert !Covers(offsets, datas, n, j);
      PatchAllOutside(parameters, offsets[..n], datas[..n], j);
    }
  }

  /** An entry only range `k` covers holds the matching entry of `datas[k]`. */
  lemma {:induction false} PatchAllInside(parameters: seq<real>, offsets: seq<int>, datas: seq<seq<real>>, k: nat, j: int)
    requires PatchesFit(parameters, offsets, datas)
    requires k < |offsets| && Covers(offsets, datas, k, j)
    requires forall l :: 0 <= l < |offsets| && l != k ==> !Covers(offsets, datas, l, j)
    ensures PatchAll(parameters, offsets, datas)[j] == datas[k][j - offsets[k]]
    decreases |offsets|
  {
    var n := |offsets| - 1;
    var front := PatchAll(parameters, offsets[..n], datas[..n]);
    if k < n {
      forall l | 0 <= l < n && l != k
        ensures !Covers(offsets[..n], datas[..n], l, j)
      {
        assert !Covers(offsets, datas, l, j);
      }
      assert !Covers(offsets, datas, n, j);
      PatchAllInside(parameters, offsets[..n], datas[..n], k, j);
    } else {
      assert offsets[n] + (j - offsets[n]) == j;
    }
  }

  /** The slice offsets of the listed brushes, in list order. */
  function ListedOffsets(helpers: seq<BrushHelper>, indices: seq<nat>): (r: seq<int>)
    requires forall k :: 0 <= k < |indices| ==> indices[k] < |helpers|
    ensures |r| == |indices|
    ensures forall k :: 0 <= k < |indices| ==> r[k] == ReferenceOffset(helpers, indices[k])
  {
    seq(|indices|, k requires 0 <= k < |indices| => ReferenceOffset(helpers, indices[k]))
  }

  /** The atlas block's copy loop as written: every numerical brush's slice receives the
      first `GetParameterCount<Numerical>()` entries of the scratch buffer, which still
      holds what the last brush left there. The atlas offset is assigned to a local copy
      of the shape and never reaches the parameters. */
  function PatchAsWritten(parameters: seq<real>, offsets: seq<int>, scratch: seq<real>): (r: seq<real>)
    requires |scratch| >= 6
    requires forall k :: 0 <= k < |offsets| ==> 0 <= offsets[k] && offsets[k] + 6 <= |parameters|
    ensures |r| == |parameters|
  {
    PatchAll(parameters, offsets, seq(|offsets|, _ => scratch[..6]))
  }

  /** The floats of an atlas offset, as `(Vector3)offset` converts them. */
  function OffsetFloats(a: Int3): (r: seq<real>)
    ensures |r| == 3
  {
    [a.x as real, a.y as real, a.z as real]
  }

  /** The corrected patch: the `Offset` of the `k`-th numerical brush becomes the offset
      the atlas reports for its texture; its `Size` is kept. */
  function PatchFixed(parameters: seq<real>, offsets: seq<int>, atlasOffsets: seq<Int3>): (r: seq<real>)
    requires |atlasOffsets| == |offsets|
    requires forall k :: 0 <= k < |offsets| ==> 0 <= offsets[k] && offsets[k] + 3 <= |parameters|
    ensures |r| == |parameters|
  {
    PatchAll(parameters, offsets, seq(|offsets|, k requires 0 <= k < |offsets| => OffsetFloats(atlasOffsets[k])))
  }

  /** Patched ranges no longer than the listed brushes' parameter counts reach no entry
      of any other brush's slice. */
  lemma {:induction false} ListedSlicesApart(helpers: seq<BrushHelper>, indices: seq<nat>, datas: seq<seq<real>>, i: nat, j: int)
    requires NumericalListed(helpers, indices) && |datas| == |indices|
    requires forall l :: 0 <= l < |indices| ==> |datas[l]| <= helpers[indices[l]].shape.ParameterCount()
    requires i < |helpers|
    requires ReferenceOffset(helpers, i) <= j < ReferenceOffset(helpers, i) + helpers[i].shape.ParameterCount()
    ensures forall l :: 0 <= l < |indices| && indices[l] != i ==> !Covers(ListedOffsets(helpers, indices), datas, l, j)
  {
    forall l | 0 <= l < |indices| && indices[l] != i
      ensures !Covers(ListedOffsets(helpers, indices), datas, l, j)
    {
      SlicesApart(helpers, i, indices[l], j);
    }
  }

  /** The listed brushes' slices fit the parameter array. */
  lemma {:induction false} ListedPatchesFit(helpers: seq<BrushHelper>, parameters: seq<real>, indices: seq<nat>, datas: seq<seq<real>>)
    requires NumericalListed(helpers, indices) && |datas| == |indices|
    requires |parameters| == ReferenceOffset(helpers, |helpers|)
    requires forall l :: 0 <= l < |indices| ==> |datas[l]| <= helpers[indices[l]].shape.ParameterCount()
    ensures PatchesFit(parameters, ListedOffsets(helpers, indices), datas)
  {
    forall l | 0 <= l < |indices|
      ensures 0 <= ListedOffsets(helpers, indices)[l] && ListedOffsets(helpers, indices)[l] + |datas[l]| <= |parameters|
    {
      OffsetNonNegative(helpers, indices[l]);
      SlicesOrdered(helpers, indices[l], |helpers|);
    }
  }

  /** Patching only the listed brushes keeps the slice of every other brush. */
  lemma {:induction false} PatchKeepsUnlisted(helpers: seq<BrushHelper>, parameters: seq<real>, indices: seq<nat>,
                                              datas: seq<seq<real>>, i: nat)
    requires NumericalListed(helpers, indices) && |datas| == |indices|
    requires |parameters| == ReferenceOffset(helpers, |helpers|)
    requires forall l :: 0 <= l < |indices| ==> |datas[l]| <= helpers[indices[l]].shape.ParameterCount()
    requires i < |helpers| && !helpers[i].shape.Numerical? && BrushSliceHolds(parameters, helpers, i)
    ensures PatchesFit(parameters, ListedOffsets(helpers, indices), datas)
    ensures BrushSliceHolds(PatchAll(parameters, ListedOffsets(helpers, indices), datas), helpers, i)
  {
    PatchKeepsUnlistedEntries(helpers, parameters, indices, datas, i);
    var r := PatchAll(parameters, ListedOffsets(helpers, indices), datas);
    var o, d := ReferenceOffset(helpers, i), helpers[i].shape.GetParameters();
    SameEntriesSameSlice(r, parameters, o, |d|);
  }

  lemma SameEntriesSameSlice(a: seq<real>, b: seq<real>, o: nat, len: nat)
    requires o + len <= |a| && o + len <= |b|
    requires forall j :: o <= j < o + len ==> a[j] == b[j]
    ensures a[o..o + len] == b[o..o + len]
  {
  }

  /** Entry by entry: the patches leave a non-numerical brush's slice alone. */
  lemma PatchKeepsUnlistedEntries(helpers: seq<BrushHelper>, parameters: seq<real>, indices: seq<nat>,
                                  datas: seq<seq<real>>, i: nat)
    requires NumericalListed(helpers, indices) && |datas| == |indices|
    requires |parameters| == ReferenceOffset(helpers, |helpers|)
    requires forall l :: 0 <= l < |indices| ==> |datas[l]| <= helpers[indices[l]].shape.ParameterCount()
    requires i < |helpers| && !helpers[i].shape.Numerical? && BrushSliceHolds(parameters, helpers, i)
    ensures PatchesFit(parameters, ListedOffsets(helpers, indices), datas)
    ensures var o := ReferenceOffset(helpers, i);
      && o + |helpers[i].shape.GetParameters()| <= |parameters|
      && |PatchAll(parameters, ListedOffsets(helpers, indices), datas)| == |parameters|
      && forall j :: o <= j < o + |helpers[i].shape.GetParameters()| ==>
           PatchAll(parameters, ListedOffsets(helpers, indices), datas)[j] == parameters[j]
  {
    ListedPatchesFit(helpers, parameters, indices, datas);
    var offsets := ListedOffsets(helpers, indices);
    var r := PatchAll(parameters, offsets, datas);
    var o, d := ReferenceOffset(helpers, i), helpers[i].shape.GetParameters();
    SDFShapes.ShapeCountsAgree(helpers[i].shape);
    forall j | o <= j < o + |d|
      ensures r[j] == parameters[j]
    {
      ListedSlicesApart(helpers, indices, datas, i, j);
      PatchAllOutside(parameters, offsets, datas, j);
    }
  }

  /** Within the `k`-th listed brush's slice, the patch puts `datas[k]` at the front. */
  lemma {:induction false} PatchFillsListed(helpers: seq<BrushHelper>, parameters: seq<real>, indices: seq<nat>,
                                            datas: seq<seq<real>>, k: nat, j: int)
    requires NumericalListed(helpers, indices) && |datas| == |indices|
    requires |parameters| == ReferenceOffset(helpers, |helpers|)
    requires forall l :: 0 <= l < |indices| ==> |datas[l]| <= helpers[indices[l]].shape.ParameterCount()
    requires k < |indices|
    requires ReferenceOffset(helpers, indices[k]) <= j < ReferenceOffset(helpers, indices[k]) + helpers[indices[k]].shape.ParameterCount()
    ensures PatchesFit(parameters, ListedOffsets(helpers, indices), datas)
    ensures 0 <= j < |parameters|
    ensures var r := PatchAll(parameters, ListedOffsets(helpers, indices), datas);
      var o := ReferenceOffset(helpers, indices[k]);
      && (j < o + |datas[k]| ==> r[j] == datas[k][j - o])
      && (j >= o + |datas[k]| ==> r[j] == parameters[j])
  {
    ListedPatchesFit(helpers, parameters, indices, datas);
    OffsetNonNegative(helpers, indices[k]);
    SlicesOrdered(helpers, indices[k], |helpers|);
    var offsets := ListedOffsets(helpers, indices);
    ListedSlicesApart(helpers, indices, datas, indices[k], j);
    forall l | 0 <= l < |indices| && l != k
      ensures indices[l] != indices[k]
    {
      if l < k {
        assert indices[l] < indices[k];
      } else {
        assert indices[k] < indices[l];
      }
    }
    if j < offsets[k] + |datas[k]| {
      PatchAllInside(parameters, offsets, datas, k, j);
    } else {
      PatchAllOutside(parameters, offsets, datas, j);
    }
  }

  /** The last brush's parameters, which the scratch buffer starts with after the copy loop. */
  function LastParameters(helpers: seq<BrushHelper>): seq<real>
  {
    if |helpers| == 0 then [] else helpers[|helpers| - 1].shape.GetParameters()
  }

  /** Brush `i`'s slice starts with the last brush's parameters. */
  predicate StartsWithLast(parameters: seq<real>, helpers: seq<BrushHelper>, i: nat)
    requires i < |helpers|
  {
    var o, last := ReferenceOffset(helpers, i), LastParameters(helpers);
    0 <= o && o + |last| <= |parameters| && parameters[o..o + |last|] == last
  }

  /** The placeholder atlas kept when a scene has no numerical brush. */
  function PlaceholderAtlas(): RU.VolumeRT
  {
    RU.CreateRWVolumeRT(RU.R8SNorm, Int3(4, 4, 4))
  }

  /** The scratch buffer's first six entries, once per listed brush. */
  function ScratchCopies(indices: seq<nat>, scratch: seq<real>): (r: seq<seq<real>>)
    requires |scratch| >= 6
    ensures |r| == |indices| && forall l :: 0 <= l < |r| ==> r[l] == scratch[..6]
  {
    seq(|indices|, _ => scratch[..6])
  }

  /** What the scratch buffer holds after the copy loop. */
  predicate ScratchAfterCopy(helpers: seq<BrushHelper>, scratch: seq<real>)
  {
    && |scratch| >= 16
    && (|helpers| > 0 ==>
          var last := helpers[|helpers| - 1].shape.GetParameters();
          |last| <= |scratch| && scratch[..|last|] == last)
  }

  lemma {:induction false} ScratchCopiesFit(helpers: seq<BrushHelper>, indices: seq<nat>, scratch: seq<real>)
    requires NumericalListed(helpers, indices) && |scratch| >= 6
    ensures forall l :: 0 <= l < |indices| ==>
      |ScratchCopies(indices, scratch)[l]| <= helpers[indices[l]].shape.ParameterCount()
  {
    forall l | 0 <= l < |indices|
      ensures |ScratchCopies(indices, scratch)[l]| <= helpers[indices[l]].shape.ParameterCount()
    {
      assert indices[l] in indices;
    }
  }

  lemma NumericalSliceFromScratch(helpers: seq<BrushHelper>, parameters: seq<real>, indices: seq<nat>,
                                   scratch: seq<real>, k: nat)
    requires NumericalListed(helpers, indices) && k < |indices|
    requires |parameters| == ReferenceOffset(helpers, |helpers|)
    requires ScratchAfterCopy(helpers, scratch)
    ensures PatchesFit(parameters, ListedOffsets(helpers, indices), ScratchCopies(indices, scratch))
    ensures StartsWithLast(PatchAsWritten(parameters, ListedOffsets(helpers, indices), scratch), helpers, indices[k])
  {
    ScratchCopiesFit(helpers, indices, scratch);
    ListedPatchesFit(helpers, parameters, indices, ScratchCopies(indices, scratch));
    ScratchSlice(helpers, parameters, indices, scratch, k);
  }

  /** Numerical brush `k`'s slice after the as-written patch holds the last brush's
      parameters, entry by entry. */
  lemma ScratchSlice(helpers: seq<BrushHelper>, parameters: seq<real>, indices: seq<nat>,
                     scratch: seq<real>, k: nat)
    requires NumericalListed(helpers, indices) && k < |indices|
    requires |parameters| == ReferenceOffset(helpers, |helpers|)
    requires ScratchAfterCopy(helpers, scratch)
    requires PatchesFit(parameters, ListedOffsets(helpers, indices), ScratchCopies(indices, scratch))
    ensures StartsWithLast(PatchAsWritten(parameters, ListedOffsets(helpers, indices), scratch), helpers, indices[k])
  {
    var r := PatchAsWritten(parameters, ListedOffsets(helpers, indices), scratch);
    var o, last := ReferenceOffset(helpers, indices[k]), LastParameters(helpers);
    ScratchEntries(helpers, parameters, indices, scratch, k, r, o, last);
    SliceFromEntries(r, o, last);
  }

  /** Every entry of numerical brush `k`'s slice after the as-written patch is the last
      brush's parameter at the same position. */
  lemma ScratchEntries(helpers: seq<BrushHelper>, parameters: seq<real>, indices: seq<nat>,
                       scratch: seq<real>, k: nat, r: seq<real>, o: int, last: seq<real>)
    requires NumericalListed(helpers, indices) && k < |indices|
    requires |parameters| == ReferenceOffset(helpers, |helpers|)
    requires ScratchAfterCopy(helpers, scratch)
    requires PatchesFit(parameters, ListedOffsets(helpers, indices), ScratchCopies(indices, scratch))
    requires r == PatchAsWritten(parameters, ListedOffsets(helpers, indices), scratch)
    requires o == ReferenceOffset(helpers, indices[k]) && last == LastParameters(helpers)
    ensures 0 <= o && o + |last| <= |r|
    ensures forall j :: o <= j < o + |last| ==> 0 <= j < |r| && r[j] == last[j - o]
  {
    assert ListedOffsets(helpers, indices)[k] == o && |ScratchCopies(indices, scratch)[k]| == 6;
    forall j | o <= j < o + |last|
      ensures 0 <= j < |r| && r[j] == last[j - o]
    {
      ScratchEntry(helpers, parameters, indices, scratch, k, r, o, last, j);
    }
  }

  /** Entry `j` of numerical brush `k`'s slice after the as-written patch is the last
      brush's parameter at the same position. */
  lemma ScratchEntry(helpers: seq<BrushHelper>, parameters: seq<real>, indices: seq<nat>,
                     scratch: seq<real>, k: nat, r: seq<real>, o: int, last: seq<real>, j: int)
    requires NumericalListed(helpers, indices) && k < |indices|
    requires |parameters| == ReferenceOffset(helpers, |helpers|)
    requires ScratchAfterCopy(helpers, scratch)
    requires PatchesFit(parameters, ListedOffsets(helpers, indices), ScratchCopies(indices, scratch))
    requires r == PatchAsWritten(parameters, ListedOffsets(helpers, indices), scratch)
    requires o == ReferenceOffset(helpers, indices[k]) && last == LastParameters(helpers)
    requires o <= j < o + |last|
    ensures 0 <= j < |r| && r[j] == last[j - o]
  {
    var datas := ScratchCopies(indices, scratch);
    ScratchCopiesFit(helpers, indices, scratch);
    SDFShapes.ShapeCountsAgree(helpers[|helpers| - 1].shape);
    SDFShapes.ShapeCountsAgree(helpers[indices[k]].shape);
    PatchFillsListed(helpers, parameters, indices, datas, k, j);
    assert datas[k] == scratch[..6];
    assert scratch[..|last|] == last;
  }

  /** The as-written patch keeps every non-numerical slice and starts every numerical
      slice with the last brush's parameters. */
  lemma {:induction false} PatchAsWrittenEffect(helpers: seq<BrushHelper>, parameters: seq<real>, indices: seq<nat>,
                                                scratch: seq<real>)
    requires NumericalListed(helpers, indices)
    requires |parameters| == ReferenceOffset(helpers, |helpers|)
    requires forall i :: 0 <= i < |helpers| ==> BrushSliceHolds(parameters, helpers, i)
    requires ScratchAfterCopy(helpers, scratch)
    ensures PatchesFit(parameters, ListedOffsets(helpers, indices), ScratchCopies(indices, scratch))
    ensures var r := PatchAsWritten(parameters, ListedOffsets(helpers, indices), scratch);
      && (forall i :: 0 <= i < |helpers| && !helpers[i].shape.Numerical? ==> BrushSliceHolds(r, helpers, i))
      && (forall i :: 0 <= i < |helpers| && helpers[i].shape.Numerical? ==> StartsWithLast(r, helpers, i))
  {
    var datas := ScratchCopies(indices, scratch);
    ScratchCopiesFit(helpers, indices, scratch);
    ListedPatchesFit(helpers, parameters, indices, datas);
    var r := PatchAsWritten(parameters, ListedOffsets(helpers, indices), scratch);
    forall i | 0 <= i < |helpers| && !helpers[i].shape.Numerical?
      ensures BrushSliceHolds(r, helpers, i)
    {
      PatchKeepsUnlisted(helpers, parameters, indices, datas, i);
    }
    forall i | 0 <= i < |helpers| && helpers[i].shape.Numerical?
      ensures StartsWithLast(r, helpers, i)
    {
      var k :| 0 <= k < |indices| && indices[k] == i;
      NumericalSliceFromScratch(helpers, parameters, indices, scratch, k);
    }
  }

  /** The atlas block's loop as written, reading each numerical brush's offset from its
      record. */
  method PatchNumericalAsWritten(helpers: seq<BrushHelper>, brushes: seq<Brush>, indices: seq<nat>,
                                 parameters: seq<real>, scratch: seq<real>)
    returns (patched: seq<real>)
    requires BrushesLaidOut(helpers, brushes) && NumericalListed(helpers, indices)
    requires |parameters| == ReferenceOffset(helpers, |helpers|)
    requires forall i :: 0 <= i < |helpers| ==> BrushSliceHolds(parameters, helpers, i)
    requires ScratchAfterCopy(helpers, scratch)
    ensures |patched| == |parameters|
    ensures forall i :: 0 <= i < |helpers| && !helpers[i].shape.Numerical? ==> BrushSliceHolds(patched, helpers, i)
    ensures forall i :: 0 <= i < |helpers| && helpers[i].shape.Numerical? ==> StartsWithLast(patched, helpers, i)
  {
    var offsets := seq(|indices|, k requires 0 <= k < |indices| => brushes[indices[k]].parameterOffset);
    RecordedOffsetsListed(helpers, brushes, indices, offsets);
    PatchAsWrittenEffect(helpers, parameters, indices, scratch);
    patched := PatchAsWritten(parameters, offsets, scratch);
  }

  /** The offsets read from the laid-out records are the reference offsets. */
  lemma RecordedOffsetsListed(helpers: seq<BrushHelper>, brushes: seq<Brush>, indices: seq<nat>, offsets: seq<int>)
    requires BrushesLaidOut(helpers, brushes) && NumericalListed(helpers, indices)
    requires |offsets| == |indices|
    requires forall k :: 0 <= k < |indices| ==> offsets[k] == brushes[indices[k]].parameterOffset
    ensures offsets == ListedOffsets(helpers, indices)
  {
  }

  /** `GatherBrushes` as written: the layout, the copy and the atlas are as intended for
      every non-numerical brush, but every numerical brush's slice ends up starting
      with the parameters of the last brush in the scene. */
  method GatherBrushes(helpers: seq<BrushHelper>) returns (c: Collection)
    ensures BrushesLaidOut(helpers, c.brushes)
    ensures |c.brushParameters| == ReferenceOffset(helpers, |helpers|)
    ensures forall i :: 0 <= i < |helpers| && !helpers[i].shape.Numerical? ==> BrushSliceHolds(c.brushParameters, helpers, i)
    ensures forall i :: 0 <= i < |helpers| && helpers[i].shape.Numerical? ==> StartsWithLast(c.brushParameters, helpers, i)
    ensures c.numericalBrushAtlas.PackedAtlas? <==> exists i :: 0 <= i < |helpers| && helpers[i].shape.Numerical?
    ensures c.numericalBrushAtlas.PackedAtlas? ==>
      TexturesListed(helpers, NumericalIndicesOf(helpers), c.numericalBrushAtlas.textures)
    ensures c.numericalBrushAtlas.Placeholder? ==> c.numericalBrushAtlas.volume == PlaceholderAtlas()
  {
    var brushes, indices, textures, total := LayOutBrushes(helpers);
    var parameters, scratch := CopyParameters(helpers, brushes, total);
    var atlas: Atlas;
    if |indices| > 0 {
      atlas := PackedAtlas(textures);
      parameters := PatchNumericalAsWritten(helpers, brushes, indices, parameters, scratch);
      assert indices[0] in indices;
    } else {
      atlas := Placeholder(PlaceholderAtlas());
      assert forall i :: 0 <= i < |helpers| && helpers[i].shape.Numerical? ==> i in indices;
    }
    c := Collection(atlas, brushes, parameters);
  }

  /** A numerical shape moved to the place the atlas gave its texture. */
  function AtlasPlaced(s: SDFShapes.Shape, a: Int3): (r: SDFShapes.Shape)
    requires s.Numerical?
    ensures r.Numerical? && r.size == s.size
    ensures r.GetParameters()[..3] == OffsetFloats(a)
  {
    SDFShapes.Numerical(Real3(a.x as real, a.y as real, a.z as real), s.size)
  }

  /** The offset floats, once per listed brush. */
  function AtlasCopies(atlasOffsets: seq<Int3>): (r: seq<seq<real>>)
    ensures |r| == |atlasOffsets| && forall l :: 0 <= l < |r| ==> r[l] == OffsetFloats(atlasOffsets[l])
  {
    seq(|atlasOffsets|, l requires 0 <= l < |atlasOffsets| => OffsetFloats(atlasOffsets[l]))
  }

  lemma {:induction false} AtlasCopiesFit(helpers: seq<BrushHelper>, indices: seq<nat>, atlasOffsets: seq<Int3>)
    requires NumericalListed(helpers, indices) && |atlasOffsets| == |indices|
    ensures forall l :: 0 <= l < |indices| ==>
      |AtlasCopies(atlasOffsets)[l]| <= helpers[indices[l]].shape.ParameterCount()
  {
    forall l | 0 <= l < |indices|
      ensures |AtlasCopies(atlasOffsets)[l]| <= helpers[indices[l]].shape.ParameterCount()
    {
      assert indices[l] in indices;
    }
  }

  /** One entry of the `k`-th numerical brush's slice after the corrected patch. */
  lemma {:induction false} PlacedEntry(helpers: seq<BrushHelper>, parameters: seq<real>, indices: seq<nat>,
                                       atlasOffsets: seq<Int3>, k: nat, j: int)
    requires NumericalListed(helpers, indices) && |atlasOffsets| == |indices| && k < |indices|
    requires |parameters| == ReferenceOffset(helpers, |helpers|)
    requires BrushSliceHolds(parameters, helpers, indices[k])
    requires helpers[indices[k]].shape.Numerical?
    requires ReferenceOffset(helpers, indices[k]) <= j < ReferenceOffset(helpers, indices[k]) + 6
    ensures PatchesFit(parameters, ListedOffsets(helpers, indices), AtlasCopies(atlasOffsets))
    ensures 0 <= j < |parameters|
    ensures PatchFixed(parameters, ListedOffsets(helpers, indices), atlasOffsets)[j]
         == AtlasPlaced(helpers[indices[k]].shape, atlasOffsets[k]).GetParameters()[j - ReferenceOffset(helpers, indices[k])]
  {
    var datas := AtlasCopies(atlasOffsets);
    var offsets := ListedOffsets(helpers, indices);
    AtlasCopiesFit(helpers, indices, atlasOffsets);
    PatchFillsListed(helpers, parameters, indices, datas, k, j);
    assert PatchFixed(parameters, offsets, atlasOffsets) == PatchAll(parameters, offsets, datas);
    var o := ReferenceOffset(helpers, indices[k]);
    if j >= o + 3 {
      KeptSizeEntry(helpers[indices[k]].shape, parameters, o, atlasOffsets[k], j);
    } else {
      assert AtlasPlaced(helpers[indices[k]].shape, atlasOffsets[k]).GetParameters()[..3] == datas[k];
    }
  }

  /** The size entries of a numerical brush's slice are the placed shape's. */
  lemma KeptSizeEntry(s: SDFShapes.Shape, parameters: seq<real>, o: int, a: Int3, j: int)
    requires s.Numerical? && SliceHolds(parameters, o, s.GetParameters())
    requires o + 3 <= j < o + 6
    ensures 0 <= j < |parameters| && parameters[j] == AtlasPlaced(s, a).GetParameters()[j - o]
  {
    assert parameters[o..o + 6] == s.GetParameters();
    assert parameters[j] == parameters[o..o + 6][j - o];
  }

  /** The `k`-th numerical brush's slice after the corrected patch holds its shape moved
      to the `k`-th atlas offset. */
  lemma {:induction false} NumericalSlicePlaced(helpers: seq<BrushHelper>, parameters: seq<real>, indices: seq<nat>,
                                                atlasOffsets: seq<Int3>, k: nat)
    requires NumericalListed(helpers, indices) && |atlasOffsets| == |indices| && k < |indices|
    requires |parameters| == ReferenceOffset(helpers, |helpers|)
    requires BrushSliceHolds(parameters, helpers, indices[k])
    ensures PatchesFit(parameters, ListedOffsets(helpers, indices), AtlasCopies(atlasOffsets))
    ensures helpers[indices[k]].shape.Numerical?
    ensures SliceHolds(PatchFixed(parameters, ListedOffsets(helpers, indices), atlasOffsets),
                       ReferenceOffset(helpers, indices[k]),
                       AtlasPlaced(helpers[indices[k]].shape, atlasOffsets[k]).GetParameters())
  {
    AtlasCopiesFit(helpers, indices, atlasOffsets);
    ListedPatchesFit(helpers, parameters, indices, AtlasCopies(atlasOffsets));
    assert indices[k] in indices;
    var r := PatchFixed(parameters, ListedOffsets(helpers, indices), atlasOffsets);
    var o := ReferenceOffset(helpers, indices[k]);
    var placed := AtlasPlaced(helpers[indices[k]].shape, atlasOffsets[k]).GetParameters();
    OffsetNonNegative(helpers, indices[k]);
    SlicesOrdered(helpers, indices[k], |helpers|);
    forall j | o <= j < o + |placed|
      ensures r[j] == placed[j - o]
    {
      PlacedEntry(helpers, parameters, indices, atlasOffsets, k, j);
    }
    SliceFromEntries(r, o, placed);
  }

  /** The corrected patch keeps every non-numerical slice and places every numerical
      brush at its atlas offset. */
  lemma {:induction false} PatchFixedEffect(helpers: seq<BrushHelper>, parameters: seq<real>, indices: seq<nat>,
                                            atlasOffsets: seq<Int3>)
    requires NumericalListed(helpers, indices) && |atlasOffsets| == |indices|
    requires |parameters| == ReferenceOffset(helpers, |helpers|)
    requires forall i :: 0 <= i < |helpers| ==> BrushSliceHolds(parameters, helpers, i)
    ensures PatchesFit(parameters, ListedOffsets(helpers, indices), AtlasCopies(atlasOffsets))
    ensures var r := PatchFixed(parameters, ListedOffsets(helpers, indices), atlasOffsets);
      && (forall i :: 0 <= i < |helpers| && !helpers[i].shape.Numerical? ==> BrushSliceHolds(r, helpers, i))
      && (forall k :: 0 <= k < |indices| ==>
            helpers[indices[k]].shape.Numerical? &&
            SliceHolds(r, ReferenceOffset(helpers, indices[k]), AtlasPlaced(helpers[indices[k]].shape, atlasOffsets[k]).GetParameters()))
  {
    var datas := AtlasCopies(atlasOffsets);
    AtlasCopiesFit(helpers, indices, atlasOffsets);
    ListedPatchesFit(helpers, parameters, indices, datas);
    var r := PatchFixed(parameters, ListedOffsets(helpers, indices), atlasOffsets);
    forall i | 0 <= i < |helpers| && !helpers[i].shape.Numerical?
      ensures BrushSliceHolds(r, helpers, i)
    {
      PatchKeepsUnlisted(helpers, parameters, indices, datas, i);
    }
    forall k | 0 <= k < |indices|
      ensures helpers[indices[k]].shape.Numerical?
      ensures SliceHolds(r, ReferenceOffset(helpers, indices[k]), AtlasPlaced(helpers[indices[k]].shape, atlasOffsets[k]).GetParameters())
    {
      NumericalSlicePlaced(helpers, parameters, indices, atlasOffsets, k);
    }
  }

  /** The corrected atlas block: the `k`-th numerical brush's `Offset` is the `k`-th
      offset the atlas reports, written into the brush's own slice. */
  method PatchNumericalFixed(helpers: seq<BrushHelper>, brushes: seq<Brush>, indices: seq<nat>,
                             parameters: seq<real>, atlasOffsets: seq<Int3>)
    returns (patched: seq<real>)
    requires BrushesLaidOut(helpers, brushes) && NumericalListed(helpers, indices)
    requires |atlasOffsets| == |indices|
    requires |parameters| == ReferenceOffset(helpers, |helpers|)
    requires forall i :: 0 <= i < |helpers| ==> BrushSliceHolds(parameters, helpers, i)
    ensures |patched| == |parameters|
    ensures forall i :: 0 <= i < |helpers| && !helpers[i].shape.Numerical? ==> BrushSliceHolds(patched, helpers, i)
    ensures forall k :: 0 <= k < |indices| ==>
      helpers[indices[k]].shape.Numerical? &&
      SliceHolds(patched, ReferenceOffset(helpers, indices[k]), AtlasPlaced(helpers[indices[k]].shape, atlasOffsets[k]).GetParameters())
  {
    var offsets := seq(|indices|, k requires 0 <= k < |indices| => brushes[indices[k]].parameterOffset);
    assert offsets == ListedOffsets(helpers, indices);
    PatchFixedEffect(helpers, parameters, indices, atlasOffsets);
    patched := PatchFixed(parameters, offsets, atlasOffsets);
  }

  /** `GatherBrushes` with the atlas offsets recorded: `atlasOffsets[k]` is where the
      atlas placed the texture of the `k`-th numerical brush. Every brush's slice holds
      its own parameters, with numerical brushes moved to their atlas offsets. */
  method GatherBrushesFixed(helpers: seq<BrushHelper>, atlasOffsets: seq<Int3>) returns (c: Collection)
    requires |atlasOffsets| == |NumericalIndicesOf(helpers)|
    ensures BrushesLaidOut(helpers, c.brushes)
    ensures |c.brushParameters| == ReferenceOffset(helpers, |helpers|)
    ensures forall i :: 0 <= i < |helpers| && !helpers[i].shape.Numerical? ==> BrushSliceHolds(c.brushParameters, helpers, i)
    ensures var indices := NumericalIndicesOf(helpers);
      forall k :: 0 <= k < |indices| ==>
        helpers[indices[k]].shape.Numerical? &&
        SliceHolds(c.brushParameters, ReferenceOffset(helpers, indices[k]),
                   AtlasPlaced(helpers[indices[k]].shape, atlasOffsets[k]).GetParameters())
    ensures c.numericalBrushAtlas.PackedAtlas? <==> |atlasOffsets| > 0
    ensures c.numericalBrushAtlas.PackedAtlas? ==>
      TexturesListed(helpers, NumericalIndicesOf(helpers), c.numericalBrushAtlas.textures)
    ensures c.numericalBrushAtlas.Placeholder? ==> c.numericalBrushAtlas.volume == PlaceholderAtlas()
  {
    var brushes, indices, textures, total := LayOutBrushes(helpers);
    var parameters, scratch := CopyParameters(helpers, brushes, total);
    var atlas: Atlas;
    if |indices| > 0 {
      atlas := PackedAtlas(textures);
      parameters := PatchNumericalFixed(helpers, brushes, indices, parameters, atlasOffsets);
    } else {
      atlas := Placeholder(PlaceholderAtlas());
    }
    c := Collection(atlas, brushes, parameters);
  }

  /** A scene with a numerical brush at offset (1, 2, 3) of size 8 followed by a sphere
      of radius 5: after the copy loop the parameters are [1, 2, 3, 8, 8, 8, 5] and the
      scratch buffer starts with the sphere's radius. The as-written patch overwrites the
      numerical brush's `Offset.x` with that radius, while the corrected patch records
      the atlas offset and keeps the size. */
  lemma PatchAsWrittenDropsAtlasOffset(a: Int3)
    ensures var parameters := [1.0, 2.0, 3.0, 8.0, 8.0, 8.0, 5.0];
      var scratch := [5.0, 2.0, 3.0, 8.0, 8.0, 8.0] + seq(10, _ => 0.0);
      && PatchAsWritten(parameters, [0], scratch) == [5.0, 2.0, 3.0, 8.0, 8.0, 8.0, 5.0]
      && PatchFixed(parameters, [0], [a]) == [a.x as real, a.y as real, a.z as real, 8.0, 8.0, 8.0, 5.0]
  {
    var parameters := [1.0, 2.0, 3.0, 8.0, 8.0, 8.0, 5.0];
    var scratch := [5.0, 2.0, 3.0, 8.0, 8.0, 8.0] + seq(10, _ => 0.0);
    assert PatchAll(parameters, [0][..0], seq(1, _ => scratch[..6])[..0]) == parameters;
    assert scratch[..6] == [5.0, 2.0, 3.0, 8.0, 8.0, 8.0];
    assert PatchAll(parameters, [0][..0], AtlasCopies([a])[..0]) == parameters;
  }
}
