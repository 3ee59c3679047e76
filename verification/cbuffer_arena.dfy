/** The constant-buffer arena of `AShaderSpecifications` (AShaderSpecifications.cs):
    every shader spec registers its parameter structs in a fixed order; each
    registration gets the running byte total as its offset, and the total is then
    rounded up to the hardware's constant-buffer offset alignment. The alignment is
    `2^alignmentLog2`, so the source's mask `alignment - 1` has `alignmentLog2` low bits set. */
module CBufferArena {
  import opened Wrappers
  import opened IntMath

  type byte = bv8

  /** `_constantBufferMimmumSize`. */
  const ConstantBufferMinimumSize: nat := 16

  /** `ConstantBufferStride`, in bytes. */
  const ConstantBufferStride: nat := 4

  // ---------------------------------------------------------------- alignment arithmetic

  /** The low `k` bits of `x` are clear: `x` is a multiple of `2^k`. */
  predicate Aligned(x: nat, k: nat)
  {
    if k == 0 then true else x % 2 == 0 && Aligned(x / 2, k - 1)
  }

  /** The least aligned value that is at least `x`, rounding up one bit at a time. */
  function AlignUp(x: nat, k: nat): (r: nat)
    ensures Aligned(r, k)
    ensures x <= r < x + Pow2(k)
    ensures Aligned(x, k) ==> r == x
  {
    if k == 0 then x
    else
      var h := AlignUp((x + 1) / 2, k - 1);
      assert (2 * h) / 2 == h && (2 * h) % 2 == 0;
      assert x <= 2 * ((x + 1) / 2) <= x + 1;
      assert Aligned(x, k) ==> (x + 1) / 2 == x / 2 && 2 * (x / 2) == x;
      2 * h
  }

  /** `x & ~mask` for `mask = 2^k - 1` on a non-negative `x`: the low `k` bits cleared. */
  function ClearLowBits(x: nat, k: nat): nat
  {
    if k == 0 then x else 2 * ClearLowBits(x / 2, k - 1)
  }

  /** The source's `(x + mask) & ~mask` is `AlignUp`. */
  lemma {:induction false} MaskExpressionIsAlignUp(x: nat, k: nat)
    ensures ClearLowBits(x + Pow2(k) - 1, k) == AlignUp(x, k)
  {
    if k > 0 {
      var h := Pow2(k - 1);
      assert (x + Pow2(k) - 1) / 2 == (x + 1) / 2 + h - 1;
      MaskExpressionIsAlignUp((x + 1) / 2, k - 1);
    }
  }

  lemma {:induction false} AlignedAdd(a: nat, b: nat, k: nat)
    requires Aligned(a, k) && Aligned(b, k)
    ensures Aligned(a + b, k)
  {
    if k > 0 {
      assert (a + b) / 2 == a / 2 + b / 2;
      AlignedAdd(a / 2, b / 2, k - 1);
    }
  }

  lemma {:induction false} AlignedZero(k: nat)
    ensures Aligned(0, k)
  {
    if k > 0 {
      AlignedZero(k - 1);
    }
  }

  /** A positive aligned value is at least the alignment. */
  lemma {:induction false} AlignedAtLeastAlignment(x: nat, k: nat)
    requires Aligned(x, k) && x >= 1
    ensures x >= Pow2(k)
  {
    if k > 0 {
      AlignedAtLeastAlignment(x / 2, k - 1);
    }
  }

  /** Rounding past an aligned offset only rounds the added size. */
  lemma {:induction false} AlignUpShift(o: nat, s: nat, k: nat)
    requires Aligned(o, k)
    ensures AlignUp(o + s, k) == o + AlignUp(s, k)
  {
    if k > 0 {
      assert (o + s + 1) / 2 == o / 2 + (s + 1) / 2;
      AlignUpShift(o / 2, (s + 1) / 2, k - 1);
    }
  }

  // ---------------------------------------------------------------- registration

  /** `ConstantBufferSpan<T>`: where a struct of `structSize` bytes was placed. */
  datatype Span = Span(offsetInBytes: nat, structSize: nat)
  {
    /** `Size`: the bound window, never smaller than 16 bytes. */
    function Size(): (r: nat)
      ensures r >= structSize && r >= ConstantBufferMinimumSize
      ensures r == structSize || r == ConstantBufferMinimumSize
    {
      if structSize < ConstantBufferMinimumSize then ConstantBufferMinimumSize else structSize
    }
  }

  /** The arena while specs register: the alignment exponent and `ConstantBufferStrideCount`,
      which counts bytes until `OnEnable` converts it to strides. */
  datatype Arena = Arena(alignmentLog2: nat, byteCount: nat)

  /** `RegisterConstantBuffer<T>()`: the struct goes at the running total; the total
      grows by `sizeof(T)` and is masked up to the next aligned value (`AlignUp`, which
      `MaskExpressionIsAlignUp` shows to be the source's mask expression). */
  function Register(a: Arena, structSize: nat): (r: (Arena, Span))
    ensures r.1 == Span(a.byteCount, structSize)
    ensures r.0.alignmentLog2 == a.alignmentLog2
    ensures Aligned(r.0.byteCount, a.alignmentLog2)
    ensures a.byteCount + structSize <= r.0.byteCount < a.byteCount + structSize + Pow2(a.alignmentLog2)
  {
    (a.(byteCount := AlignUp(a.byteCount + structSize, a.alignmentLog2)), Span(a.byteCount, structSize))
  }

  /** Registering a list of struct sizes in order. */
  function RegisterAll(a: Arena, sizes: seq<nat>): (r: (Arena, seq<Span>))
    ensures |r.1| == |sizes|
    ensures forall i :: 0 <= i < |sizes| ==> r.1[i].structSize == sizes[i]
    ensures r.0.alignmentLog2 == a.alignmentLog2
    decreases |sizes|
  {
    if |sizes| == 0 then (a, [])
    else
      var (a1, spans) := RegisterAll(a, sizes[..|sizes| - 1]);
      var (a2, span) := Register(a1, sizes[|sizes| - 1]);
      (a2, spans + [span])
  }

  /** Registering one more struct after a list is one more `Register` call. */
  lemma RegisterAllSnoc(a: Arena, sizes: seq<nat>, size: nat)
    ensures var (a1, spans) := RegisterAll(a, sizes);
      var (a2, span) := Register(a1, size);
      RegisterAll(a, sizes + [size]) == (a2, spans + [span])
  {
    assert (sizes + [size])[..|sizes|] == sizes;
  }

  /** Registering more structs afterwards leaves the earlier spans alone. */
  lemma {:induction false} RegisterAllPrefix(a: Arena, sizes: seq<nat>, more: seq<nat>)
    ensures RegisterAll(a, sizes + more).1[..|sizes|] == RegisterAll(a, sizes).1
    decreases |more|
  {
    if |more| > 0 {
      var n := |more| - 1;
      assert (sizes + more)[..|sizes + more| - 1] == sizes + more[..n];
      RegisterAllPrefix(a, sizes, more[..n]);
    } else {
      assert sizes + more == sizes;
    }
  }

  /** The reference layout: the sizes rounded up to the alignment, added up. */
  function AlignedTotal(sizes: seq<nat>, k: nat): nat
  {
    if |sizes| == 0 then 0 else AlignedTotal(sizes[..|sizes| - 1], k) + AlignUp(sizes[|sizes| - 1], k)
  }

  /** Where registration `i` lands in the reference layout. */
  function AlignedOffset(sizes: seq<nat>, k: nat, i: nat): nat
    requires i <= |sizes|
  {
    AlignedTotal(sizes[..i], k)
  }

  /** From an aligned start, the total after registering ends past the aligned sizes. */
  lemma {:induction false} RegisterAllTotal(a: Arena, sizes: seq<nat>)
    requires Aligned(a.byteCount, a.alignmentLog2)
    ensures RegisterAll(a, sizes).0.byteCount == a.byteCount + AlignedTotal(sizes, a.alignmentLog2)
    decreases |sizes|
  {
    var k := a.alignmentLog2;
    if |sizes| > 0 {
      var n := |sizes| - 1;
      var prefix := sizes[..n];
      RegisterAllTotal(a, prefix);
      var a1 := RegisterAll(a, prefix).0;
      var t := AlignedTotal(prefix, k);
      AlignedTotalAligned(prefix, k);
      AlignedAdd(a.byteCount, t, k);
      RegisterFromAligned(a1, sizes[n]);
      assert RegisterAll(a, sizes).0 == Register(a1, sizes[n]).0;
      assert AlignedTotal(sizes, k) == t + AlignUp(sizes[n], k);
    }
  }

  /** From an aligned start, one registration advances the count by the aligned size. */
  lemma RegisterFromAligned(a: Arena, size: nat)
    requires Aligned(a.byteCount, a.alignmentLog2)
    ensures Register(a, size).0.byteCount == a.byteCount + AlignUp(size, a.alignmentLog2)
  {
    AlignUpShift(a.byteCount, size, a.alignmentLog2);
  }

  /** From an aligned start, registration `i` lands at the start plus the aligned
      sizes of the registrations before it: the layout depends on nothing but the
      alignment and the sizes. */
  lemma {:induction false} RegisterAllLayout(a: Arena, sizes: seq<nat>)
    requires Aligned(a.byteCount, a.alignmentLog2)
    ensures forall i :: 0 <= i < |sizes| ==>
      RegisterAll(a, sizes).1[i].offsetInBytes == a.byteCount + AlignedOffset(sizes, a.alignmentLog2, i)
    decreases |sizes|
  {
    var k := a.alignmentLog2;
    if |sizes| > 0 {
      var n := |sizes| - 1;
      var prefix := sizes[..n];
      RegisterAllLayout(a, prefix);
      RegisterAllTotal(a, prefix);
      var spans := RegisterAll(a, prefix).1;
      assert RegisterAll(a, sizes).1 == spans + [Span(RegisterAll(a, prefix).0.byteCount, sizes[n])];
      assert AlignedOffset(sizes, k, n) == AlignedTotal(prefix, k);
      forall i | 0 <= i < n
        ensures AlignedOffset(sizes, k, i) == AlignedOffset(prefix, k, i)
      {
        assert sizes[..i] == prefix[..i];
      }
    }
  }

  lemma {:induction false} AlignedTotalAligned(sizes: seq<nat>, k: nat)
    ensures Aligned(AlignedTotal(sizes, k), k)
    decreases |sizes|
  {
    if |sizes| == 0 {
      AlignedZero(k);
    } else {
      var n := |sizes| - 1;
      AlignedTotalAligned(sizes[..n], k);
      AlignedAdd(AlignedTotal(sizes[..n], k), AlignUp(sizes[n], k), k);
    }
  }

  /** The aligned total grows by at least each aligned size passed. */
  lemma {:induction false} PrefixGap(sizes: seq<nat>, k: nat, i: nat, j: nat)
    requires i < j <= |sizes|
    ensures AlignedOffset(sizes, k, j) >= AlignedOffset(sizes, k, i) + AlignUp(sizes[i], k)
    decreases j
  {
    assert sizes[..j][..j - 1] == sizes[..j - 1];
    if j > i + 1 {
      PrefixGap(sizes, k, i, j - 1);
    }
  }

  predicate OffsetsAligned(spans: seq<Span>, k: nat)
  {
    forall i :: 0 <= i < |spans| ==> Aligned(spans[i].offsetInBytes, k)
  }

  /** The reserved ranges `[offset, offset + sizeof(T))` follow one another without overlap. */
  predicate StructsDisjoint(spans: seq<Span>)
  {
    forall i, j :: 0 <= i < j < |spans| ==> spans[i].offsetInBytes + spans[i].structSize <= spans[j].offsetInBytes
  }

  predicate StructsWithin(spans: seq<Span>, start: nat, total: nat)
  {
    forall i :: 0 <= i < |spans| ==> start <= spans[i].offsetInBytes && spans[i].offsetInBytes + spans[i].structSize <= total
  }

  /** The bound windows `[offset, offset + Size)` follow one another without overlap. */
  predicate WindowsDisjoint(spans: seq<Span>)
  {
    forall i, j :: 0 <= i < j < |spans| ==> spans[i].offsetInBytes + spans[i].Size() <= spans[j].offsetInBytes
  }

  predicate WindowsWithin(spans: seq<Span>, total: nat)
  {
    forall i :: 0 <= i < |spans| ==> spans[i].offsetInBytes + spans[i].Size() <= total
  }

  /** Each registration's aligned size fits before the next registration and before
      the total. */
  lemma SpansGapped(a: Arena, sizes: seq<nat>)
    requires Aligned(a.byteCount, a.alignmentLog2)
    ensures var (r, spans) := RegisterAll(a, sizes);
      forall i, j :: 0 <= i < j < |spans| ==>
        spans[i].offsetInBytes + AlignUp(sizes[i], a.alignmentLog2) <= spans[j].offsetInBytes
    ensures var (r, spans) := RegisterAll(a, sizes);
      forall i :: 0 <= i < |spans| ==>
        a.byteCount <= spans[i].offsetInBytes && spans[i].offsetInBytes + AlignUp(sizes[i], a.alignmentLog2) <= r.byteCount
  {
    var k := a.alignmentLog2;
    RegisterAllLayout(a, sizes);
    RegisterAllTotal(a, sizes);
    assert AlignedOffset(sizes, k, |sizes|) == AlignedTotal(sizes, k) by {
      assert sizes[..|sizes|] == sizes;
    }
    forall i, j | 0 <= i < j <= |sizes|
      ensures AlignedOffset(sizes, k, j) >= AlignedOffset(sizes, k, i) + AlignUp(sizes[i], k)
    {
      PrefixGap(sizes, k, i, j);
    }
  }

  lemma RegistrationsAligned(a: Arena, sizes: seq<nat>)
    requires Aligned(a.byteCount, a.alignmentLog2)
    ensures OffsetsAligned(RegisterAll(a, sizes).1, a.alignmentLog2)
  {
    var k := a.alignmentLog2;
    RegisterAllLayout(a, sizes);
    forall i | 0 <= i < |sizes|
      ensures Aligned(RegisterAll(a, sizes).1[i].offsetInBytes, k)
    {
      AlignedTotalAligned(sizes[..i], k);
      AlignedAdd(a.byteCount, AlignedOffset(sizes, k, i), k);
    }
  }

  /** Offsets handed out from an aligned start are aligned, and the reserved ranges of
      different registrations are disjoint and lie below the final total. With an
      alignment of at least 16, even the bound windows are disjoint and lie below the total. */
  lemma RegistrationsDisjoint(a: Arena, sizes: seq<nat>)
    requires Aligned(a.byteCount, a.alignmentLog2)
    requires forall i :: 0 <= i < |sizes| ==> sizes[i] >= 1
    ensures OffsetsAligned(RegisterAll(a, sizes).1, a.alignmentLog2)
    ensures StructsDisjoint(RegisterAll(a, sizes).1)
    ensures StructsWithin(RegisterAll(a, sizes).1, a.byteCount, RegisterAll(a, sizes).0.byteCount)
    ensures a.alignmentLog2 >= 4 ==> WindowsDisjoint(RegisterAll(a, sizes).1)
    ensures a.alignmentLog2 >= 4 ==> WindowsWithin(RegisterAll(a, sizes).1, RegisterAll(a, sizes).0.byteCount)
  {
    var k := a.alignmentLog2;
    RegistrationsAligned(a, sizes);
    SpansGapped(a, sizes);
    var spans := RegisterAll(a, sizes).1;
    if k >= 4 {
      Pow2Monotone(4, k);
      assert Pow2(4) == 16;
      forall i | 0 <= i < |spans|
        ensures AlignUp(sizes[i], k) >= spans[i].Size()
      {
        AlignedAtLeastAlignment(AlignUp(sizes[i], k), k);
      }
    }
  }

  // ---------------------------------------------------------------- OnEnable

  /** `a & b` on non-negative integers. */
  function BitAnd(a: nat, b: nat): nat
  {
    if a == 0 || b == 0 then 0
    else 2 * BitAnd(a / 2, b / 2) + (if a % 2 == 1 && b % 2 == 1 then 1 else 0)
  }

  lemma {:induction false} BitAndSelf(a: nat)
    ensures BitAnd(a, a) == a
  {
    if a > 0 {
      BitAndSelf(a / 2);
    }
  }

  /** The exponent of an all-ones mask: `mask & (mask + 1) == 0` holds exactly when
      `mask + 1` is a power of two. */
  function MaskLog2(mask: nat): (k: nat)
    requires BitAnd(mask, mask + 1) == 0
    ensures Pow2(k) == mask + 1
  {
    if mask == 0 then 0
    else
      MaskHalves(mask);
      var k := MaskLog2(mask / 2);
      assert Pow2(k + 1) == 2 * Pow2(k);
      k + 1
  }

  /** Dropping the low bit of an all-ones mask leaves an all-ones mask. */
  lemma MaskHalves(mask: nat)
    requires mask > 0 && BitAnd(mask, mask + 1) == 0
    ensures BitAnd(mask / 2, mask / 2 + 1) == 0 && mask + 1 == 2 * (mask / 2 + 1)
  {
    MaskIsOdd(mask);
    assert (mask + 1) % 2 == 0 && (mask + 1) / 2 == mask / 2 + 1;
    assert BitAnd(mask, mask + 1) == 2 * BitAnd(mask / 2, (mask + 1) / 2);
  }

  lemma MaskIsOdd(mask: nat)
    requires mask > 0 && BitAnd(mask, mask + 1) == 0
    ensures mask % 2 == 1
  {
    if mask % 2 == 0 {
      BitAndSelf(mask / 2);
      assert (mask + 1) / 2 == mask / 2;
    }
  }

  /** Every power of two passes the mask check. */
  lemma {:induction false} PowerOfTwoMaskPasses(k: nat)
    ensures BitAnd(Pow2(k) - 1, Pow2(k)) == 0
  {
    if k > 0 {
      PowerOfTwoMaskPasses(k - 1);
      assert (Pow2(k) - 1) / 2 == Pow2(k - 1) - 1;
    }
  }

  /** The two assertions at the head of `OnEnable` on `alignment - 1`: an all-ones mask,
      and the 4-byte stride no larger than it. */
  predicate AlignmentAccepted(alignment: int)
  {
    alignment - 1 >= ConstantBufferStride && BitAnd(alignment - 1, alignment) == 0
  }

  /** Every accepted alignment is a power of two from 8 up. */
  lemma AlignmentAcceptedIsPowerOfTwo(alignment: int)
    ensures AlignmentAccepted(alignment) ==> alignment == Pow2(MaskLog2(alignment - 1)) && MaskLog2(alignment - 1) >= 3
  {
    if AlignmentAccepted(alignment) {
      var k := MaskLog2(alignment - 1);
      if k < 3 {
        Pow2Monotone(k, 2);
        assert false;
      }
    }
  }

  /** Every power of two from 8 up is accepted: with the lemma above, the accepted
      alignments are exactly these. */
  lemma PowerOfTwoAccepted(k: nat)
    ensures k >= 3 ==> AlignmentAccepted(Pow2(k))
  {
    if k >= 3 {
      PowerOfTwoMaskPasses(k);
      Pow2Monotone(3, k);
    }
  }

  /** What `OnEnable` leaves: the stride count and the span of every registration. */
  datatype ShaderSpecs = ShaderSpecs(alignmentLog2: nat, constantBufferStrideCount: nat, spans: seq<Span>)

  /** The byte total turned into a count of 4-byte strides, rounding up. */
  function StrideCount(byteCount: nat): (r: nat)
    ensures r * ConstantBufferStride >= byteCount
    ensures forall g: nat :: g * ConstantBufferStride >= byteCount ==> g >= r
  {
    CeilDivIsLeastCover(byteCount, ConstantBufferStride);
    (byteCount + ConstantBufferStride - 1) / ConstantBufferStride
  }

  /** The body both revisions of `OnEnable` share: check the alignment, reset the count,
      register the specs' structs in order, convert the byte total to strides. Whatever
      count a previous run left (the hot-reload handler re-runs `OnEnable`) plays no part. */
  function Enable(alignment: int, sizes: seq<nat>): (r: ShaderSpecs)
    requires AlignmentAccepted(alignment)
    ensures Pow2(r.alignmentLog2) == alignment && r.alignmentLog2 >= 3
    ensures |r.spans| == |sizes|
    ensures |sizes| > 0 ==> r.spans[0].offsetInBytes == 0
    ensures forall i :: 0 <= i < |sizes| ==>
      && r.spans[i].offsetInBytes == AlignedOffset(sizes, r.alignmentLog2, i)
      && r.spans[i].structSize == sizes[i]
    ensures r.constantBufferStrideCount == StrideCount(AlignedTotal(sizes, r.alignmentLog2))
  {
    AlignmentAcceptedIsPowerOfTwo(alignment);
    var k := MaskLog2(alignment - 1);
    var (arena, spans) := RegisterAll(Arena(k, 0), sizes);
    AlignedZero(k);
    RegisterAllLayout(Arena(k, 0), sizes);
    RegisterAllTotal(Arena(k, 0), sizes);
    ShaderSpecs(k, StrideCount(arena.byteCount), spans)
  }

  /** After `OnEnable`, offsets are aligned, the reserved ranges are disjoint, and the
      buffer of `stride * count` bytes covers every registered struct; with an
      alignment of at least 16 the bound windows are disjoint and covered too. */
  lemma EnableLaysOutDisjointly(alignment: int, sizes: seq<nat>)
    requires AlignmentAccepted(alignment)
    requires forall i :: 0 <= i < |sizes| ==> sizes[i] >= 1
    ensures var r := Enable(alignment, sizes);
      && OffsetsAligned(r.spans, r.alignmentLog2)
      && StructsDisjoint(r.spans)
      && StructsWithin(r.spans, 0, r.constantBufferStrideCount * ConstantBufferStride)
      && (alignment >= 16 ==> WindowsDisjoint(r.spans))
      && (alignment >= 16 ==> WindowsWithin(r.spans, r.constantBufferStrideCount * ConstantBufferStride))
  {
    var r := Enable(alignment, sizes);
    var k := r.alignmentLog2;
    AlignedZero(k);
    RegistrationsDisjoint(Arena(k, 0), sizes);
    RegisterAllTotal(Arena(k, 0), sizes);
    assert r.spans == RegisterAll(Arena(k, 0), sizes).1;
    if alignment >= 16 && k < 4 {
      Pow2Monotone(k, 3);
      assert false;
    }
  }

  /** Two registrations: the first at 0, the second at the first's rounded size. */
  lemma PairOffsets(a: nat, b: nat, k: nat)
    ensures AlignedOffset([a, b], k, 0) == 0 && AlignedOffset([a, b], k, 1) == AlignUp(a, k)
  {
    assert [a, b][..1] == [a] && [a][..0] == [] && [a, b][..0] == [];
  }

  /** Sizes 1 and 2 round up to 2 at alignment `2^1`. */
  lemma SmallAlignsToTwo(a: nat)
    requires 1 <= a <= 2
    ensures AlignUp(a, 1) == 2
  {
    assert (a + 1) / 2 == 1;
  }

  /** Sizes 1 to 4 round up to 4 at alignment `2^2`. */
  lemma SmallAlignsToFour(a: nat)
    requires 1 <= a <= 4
    ensures AlignUp(a, 2) == 4
  {
    SmallAlignsToTwo((a + 1) / 2);
  }

  /** Any size from 1 to 8 rounds up to 8 at alignment `2^3`. */
  lemma SmallAlignsToEight(a: nat)
    requires 1 <= a <= 8
    ensures AlignUp(a, 3) == 8
  {
    SmallAlignsToFour((a + 1) / 2);
  }

  /** The only `k` with `2^k == 8` is 3. */
  lemma Log2OfEight(k: nat)
    requires Pow2(k) == 8
    ensures k == 3
  {
    if k < 3 {
      Pow2Monotone(k, 2);
    } else if k > 3 {
      Pow2Monotone(4, k);
    }
  }

  /** With an alignment of 8, which both assertions accept, a struct of at most 8 bytes
      and the one after it land 8 bytes apart, so their bound windows (at least 16 bytes)
      overlap. */
  lemma BoundWindowsOverlapBelow16(a: nat, b: nat)
    requires 1 <= a <= 8
    ensures AlignmentAccepted(8)
    ensures var spans := Enable(8, [a, b]).spans;
      && spans == [Span(0, a), Span(8, b)]
      && spans[1].offsetInBytes < spans[0].offsetInBytes + spans[0].Size()
  {
    assert Pow2(3) == 8;
    PowerOfTwoAccepted(3);
    var r := Enable(8, [a, b]);
    Log2OfEight(r.alignmentLog2);
    PairOffsets(a, b, 3);
    SmallAlignsToEight(a);
    assert r.spans[0] == Span(0, a) && r.spans[1] == Span(8, b);
  }

  /** The struct sizes each spec's `OnAfterDeserialize` registers, per spec. */
  datatype SpecRegistrations = SpecRegistrations(
    textureUtil: seq<nat>, sdfGeneration: seq<nat>, rayMarching: seq<nat>,
    deferred: seq<nat>, fluidSolver: seq<nat>, debugFluidParticle: seq<nat>)

  /** The order `OnEnable` initialises the six specs in. */
  function RegistrationOrder(s: SpecRegistrations): seq<nat>
  {
    s.textureUtil + s.sdfGeneration + s.rayMarching + s.deferred + s.fluidSolver + s.debugFluidParticle
  }

  /** `OnEnable`: the six specs' registrations, laid out from offset 0 whatever the
      previous stride count. */
  function OnEnable(previousStrideCount: nat, alignment: int, specs: SpecRegistrations): (r: ShaderSpecs)
    requires AlignmentAccepted(alignment)
    ensures |r.spans| == |RegistrationOrder(specs)|
    ensures forall i :: 0 <= i < |r.spans| ==>
      && r.spans[i].offsetInBytes == AlignedOffset(RegistrationOrder(specs), r.alignmentLog2, i)
      && r.spans[i].structSize == RegistrationOrder(specs)[i]
  {
    Enable(alignment, RegistrationOrder(specs))
  }

  // ---------------------------------------------------------------- writes

  datatype WriteError = WindowOutOfRange(offset: nat, size: nat) | SourceTooShort(available: nat, count: nat)

  /** `SubUpdateCBuffer`: maps the span's `Size`-byte window and stores the struct's bytes
      at its start. The source leaves the bytes of the window past the struct unspecified;
      the model keeps them. */
  function SubUpdateCBuffer(buffer: seq<byte>, span: Span, data: seq<byte>): (r: Result<seq<byte>, WriteError>)
    requires |data| == span.structSize
    ensures r.Ok? <==> span.offsetInBytes + span.Size() <= |buffer|
    ensures r.Ok? ==> |r.value| == |buffer|
    ensures r.Ok? ==> r.value[span.offsetInBytes..span.offsetInBytes + |data|] == data
    ensures r.Ok? ==> forall i :: 0 <= i < |buffer| && !(span.offsetInBytes <= i < span.offsetInBytes + span.Size()) ==>
                        r.value[i] == buffer[i]
  {
    var o := span.offsetInBytes;
    if o + span.Size() > |buffer| then Err(WindowOutOfRange(o, span.Size()))
    else Ok(buffer[..o] + data + buffer[o + |data|..])
  }

  /** `SetCBuffer` as written: asks the engine to copy `Size` bytes out of a one-element
      array of `T` reinterpreted as bytes, taken here to hold the struct's `sizeof(T)`
      bytes; the engine rejects a count past the end of the source. */
  function SetCBuffer(buffer: seq<byte>, span: Span, data: seq<byte>): (r: Result<seq<byte>, WriteError>)
    requires |data| == span.structSize
    ensures r.Ok? <==> span.Size() <= |data| && span.offsetInBytes + span.Size() <= |buffer|
    ensures r.Ok? ==> |r.value| == |buffer| && r.value[span.offsetInBytes..span.offsetInBytes + |data|] == data
    ensures r.Ok? ==> forall i :: 0 <= i < |buffer| && !(span.offsetInBytes <= i < span.offsetInBytes + |data|) ==>
                        r.value[i] == buffer[i]
  {
    var o := span.offsetInBytes;
    if |data| < span.Size() then Err(SourceTooShort(|data|, span.Size()))
    else if o + span.Size() > |buffer| then Err(WindowOutOfRange(o, span.Size()))
    else Ok(buffer[..o] + data + buffer[o + |data|..])
  }

  /** A 12-byte struct (the size of `MipGenerationParameters`) cannot be set this way,
      even into a buffer with room for its window. */
  lemma SetCBufferRejectsSmallStructs(buffer: seq<byte>, offset: nat, data: seq<byte>)
    requires |data| == 12 && offset + 16 <= |buffer|
    ensures SetCBuffer(buffer, Span(offset, 12), data) == Err(SourceTooShort(12, 16))
  {
  }

  /** `SetCBuffer` copying the `sizeof(T)` bytes the source array holds: it succeeds
      whenever the window fits and agrees with `SubUpdateCBuffer`. */
  function SetCBufferFixed(buffer: seq<byte>, span: Span, data: seq<byte>): (r: Result<seq<byte>, WriteError>)
    requires |data| == span.structSize
    ensures r.Ok? <==> span.offsetInBytes + span.Size() <= |buffer|
    ensures r.Ok? ==> |r.value| == |buffer| && r.value[span.offsetInBytes..span.offsetInBytes + |data|] == data
    ensures r.Ok? ==> forall i :: 0 <= i < |buffer| && !(span.offsetInBytes <= i < span.offsetInBytes + |data|) ==>
                        r.value[i] == buffer[i]
    ensures r == SubUpdateCBuffer(buffer, span, data)
  {
    var o := span.offsetInBytes;
    if o + span.Size() > |buffer| then Err(WindowOutOfRange(o, span.Size()))
    else Ok(buffer[..o] + data + buffer[o + |data|..])
  }
}
