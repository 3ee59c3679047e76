/** The emitter abstraction the batching code reads: `FluidEmitterType` and the
    members of `IFluidEmitter` that `EmitterParameterBufferBuilder` uses. */
module FluidEmitterTypes {

  type byte = bv8

  /** `enum FluidEmitterType { Particle, Cube }`. */
  datatype FluidEmitterType = Particle | Cube

  /** The value `(uint)type` stores for each enum member. */
  function Ordinal(t: FluidEmitterType): nat
  {
    match t
    case Particle => 0
    case Cube => 1
  }

  /** An emitter as the builder sees it: its type, its particle count and the
      parameter bytes it writes into its slice (their length is its byte count). */
  datatype EmitterView = EmitterView(emitterType: FluidEmitterType, particleCount: nat, parameters: seq<byte>)

  function TotalParticles(es: seq<EmitterView>): nat
  {
    if |es| == 0 then 0 else es[0].particleCount + TotalParticles(es[1..])
  }

  function TotalBytes(es: seq<EmitterView>): nat
  {
    if |es| == 0 then 0 else |es[0].parameters| + TotalBytes(es[1..])
  }

  /** The emitters' parameter bytes laid back to back. */
  function ConcatParameters(es: seq<EmitterView>): (r: seq<byte>)
    ensures |r| == TotalBytes(es)
  {
    if |es| == 0 then [] else es[0].parameters + ConcatParameters(es[1..])
  }

  lemma {:induction false} TotalsAppend(a: seq<EmitterView>, b: seq<EmitterView>)
    ensures TotalParticles(a + b) == TotalParticles(a) + TotalParticles(b)
    ensures TotalBytes(a + b) == TotalBytes(a) + TotalBytes(b)
    ensures ConcatParameters(a + b) == ConcatParameters(a) + ConcatParameters(b)
  {
    if |a| == 0 {
      assert a + b == b;
    } else {
      assert (a + b)[1..] == a[1..] + b;
      TotalsAppend(a[1..], b);
    }
  }

  /** A list of lists of emitters (one list per emitter type) flattened in call order. */
  function Flatten(lists: seq<seq<EmitterView>>): seq<EmitterView>
  {
    if |lists| == 0 then [] else lists[0] + Flatten(lists[1..])
  }
}

/** `EmitterParameterBufferBuilder` (FluidEmitterCompute.cs): `Reserve` counts the
    dispatch records, partitions and parameter bytes a list of emitters needs,
    `Allocate` sizes the three arrays, `AddEmitters` fills them. The builder is a
    value; every operation returns the next one. */
module EmitterBatching {
  import opened Wrappers
  import opened IntMath
  import opened FluidEmitterTypes
  import opened SeqOps

  /** `MaxEmitterParticleCountPerGroup`. */
  const MaxGroup: nat := 1024

  /** The GPU-side `FluidEmitter` record: type ordinal, parameter offset, running particle sum. */
  datatype DispatchRecord = DispatchRecord(emitterType: nat, parameterOffset: nat, particleCountInclusiveSum: nat)

  /** `default(FluidEmitter)`: what a freshly allocated slot holds. */
  const EmptyRecord := DispatchRecord(0, 0, 0)

  datatype Builder = Builder(
    emitterDispatchCount: nat,
    parameterByteCount: nat,
    partitionCount: nat,
    groupParticleCount: nat,
    groupParticleCountInclusiveSum: nat,
    emitterDispatchBuffer: seq<DispatchRecord>,
    partitionBuffer: seq<int>,
    parameterBuffer: seq<byte>)

  /** `default(EmitterParameterBufferBuilder)`. */
  const NewBuilder := Builder(0, 0, 0, 0, 0, [], [], [])

  datatype BuildError =
    | DispatchIndexOutOfRange(index: nat)
    | ParameterSliceOutOfRange(start: nat, length: nat)

  // ---------------------------------------------------------------- Reserve

  /** One iteration of the loop in `Reserve`. */
  function ReserveEmitter(b: Builder, e: EmitterView): (r: Builder)
    ensures r.groupParticleCount <= MaxGroup
    ensures MaxGroup * (r.partitionCount - b.partitionCount) + r.groupParticleCount
            == b.groupParticleCount + e.particleCount
    ensures r.emitterDispatchCount - b.emitterDispatchCount == r.partitionCount - b.partitionCount >= 0
    ensures r.partitionCount > b.partitionCount <==> b.groupParticleCount + e.particleCount > MaxGroup
    ensures b.groupParticleCount + e.particleCount > MaxGroup ==> 0 <= r.groupParticleCount < MaxGroup
    ensures r.parameterByteCount == b.parameterByteCount + |e.parameters|
    ensures r.groupParticleCountInclusiveSum == b.groupParticleCountInclusiveSum
    ensures r.emitterDispatchBuffer == b.emitterDispatchBuffer && r.partitionBuffer == b.partitionBuffer
    ensures r.parameterBuffer == b.parameterBuffer
  {
    var g := b.groupParticleCount + e.particleCount;
    var groupCount := if g > MaxGroup then g / MaxGroup else 0;
    b.(emitterDispatchCount := b.emitterDispatchCount + groupCount,
       partitionCount := b.partitionCount + groupCount,
       groupParticleCount := if g > MaxGroup then g % MaxGroup else g,
       parameterByteCount := b.parameterByteCount + |e.parameters|)
  }

  function ReserveLoop(b: Builder, es: seq<EmitterView>): (r: Builder)
    ensures |es| == 0 ==> r == b
    ensures |es| > 0 ==> r.groupParticleCount <= MaxGroup
    ensures MaxGroup * (r.partitionCount - b.partitionCount) + r.groupParticleCount
            == b.groupParticleCount + TotalParticles(es)
    ensures r.emitterDispatchCount - b.emitterDispatchCount == r.partitionCount - b.partitionCount >= 0
    ensures r.parameterByteCount == b.parameterByteCount + TotalBytes(es)
    ensures r.groupParticleCountInclusiveSum == b.groupParticleCountInclusiveSum
    ensures r.emitterDispatchBuffer == b.emitterDispatchBuffer && r.partitionBuffer == b.partitionBuffer
    ensures r.parameterBuffer == b.parameterBuffer
    decreases |es|
  {
    if |es| == 0 then b else ReserveLoop(ReserveEmitter(b, es[0]), es[1..])
  }

  /** `Reserve(emitters)`: one record per emitter up front, then the loop. */
  function Reserve(b: Builder, es: seq<EmitterView>): (r: Builder)
    ensures r.emitterDispatchCount == b.emitterDispatchCount + |es| + (r.partitionCount - b.partitionCount)
    ensures r.partitionCount >= b.partitionCount
    ensures MaxGroup * (r.partitionCount - b.partitionCount) + r.groupParticleCount
            == b.groupParticleCount + TotalParticles(es)
    ensures r.parameterByteCount == b.parameterByteCount + TotalBytes(es)
  {
    ReserveLoop(b.(emitterDispatchCount := b.emitterDispatchCount + |es|), es)
  }

  lemma {:induction false} ReserveLoopAppend(b: Builder, l1: seq<EmitterView>, l2: seq<EmitterView>)
    ensures ReserveLoop(b, l1 + l2) == ReserveLoop(ReserveLoop(b, l1), l2)
    decreases |l1|
  {
    if |l1| == 0 {
      assert l1 + l2 == l2;
    } else {
      assert (l1 + l2)[1..] == l1[1..] + l2;
      ReserveLoopAppend(ReserveEmitter(b, l1[0]), l1[1..], l2);
    }
  }

  /** `b2` counts like `b1` except for `n` more dispatch records. */
  ghost predicate SameCounts(b1: Builder, b2: Builder, n: nat)
  {
    && b2.partitionCount == b1.partitionCount
    && b2.groupParticleCount == b1.groupParticleCount
    && b2.parameterByteCount == b1.parameterByteCount
    && b2.emitterDispatchCount == b1.emitterDispatchCount + n
  }

  /** The dispatch count does not steer the loop: shifting it shifts the result. */
  lemma {:induction false} ReserveLoopShift(b1: Builder, b2: Builder, n: nat, es: seq<EmitterView>)
    requires SameCounts(b1, b2, n)
    ensures SameCounts(ReserveLoop(b1, es), ReserveLoop(b2, es), n)
    decreases |es|
  {
    if |es| > 0 {
      ReserveLoopShift(ReserveEmitter(b1, es[0]), ReserveEmitter(b2, es[0]), n, es[1..]);
    }
  }

  /** One `Reserve` call per list, in order. */
  function ReserveAll(b: Builder, lists: seq<seq<EmitterView>>): Builder
    decreases |lists|
  {
    if |lists| == 0 then b else ReserveAll(Reserve(b, lists[0]), lists[1..])
  }

  /** Reserving list by list counts like the loop over the flattened list, with
      one extra dispatch record per emitter. */
  lemma {:induction false} ReserveAllIsFlatLoop(b: Builder, lists: seq<seq<EmitterView>>)
    ensures SameCounts(ReserveLoop(b, Flatten(lists)), ReserveAll(b, lists), |Flatten(lists)|)
    decreases |lists|
  {
    if |lists| > 0 {
      var l, rest := lists[0], lists[1..];
      var f := Flatten(rest);
      assert Flatten(lists) == l + f;
      var r1 := ReserveLoop(b, l);
      var b0 := b.(emitterDispatchCount := b.emitterDispatchCount + |l|);
      var b1 := Reserve(b, l);
      assert b1 == ReserveLoop(b0, l);
      assert ReserveAll(b, lists) == ReserveAll(b1, rest);
      ReserveLoopShift(b, b0, |l|, l);
      ReserveAllIsFlatLoop(b1, rest);
      ReserveLoopShift(r1, b1, |l|, f);
      ReserveLoopAppend(b, l, f);
      assert |Flatten(lists)| == |l| + |f|;
    }
  }

  // ---------------------------------------------------------------- Allocate

  /** `Allocate`: arrays of the reserved lengths, counters back to 0 except the
      running inclusive sum, which is left as it was. */
  function Allocate(b: Builder): (r: Builder)
    ensures |r.emitterDispatchBuffer| == b.emitterDispatchCount
    ensures |r.partitionBuffer| == b.partitionCount
    ensures |r.parameterBuffer| == b.parameterByteCount
    ensures forall i :: 0 <= i < |r.emitterDispatchBuffer| ==> r.emitterDispatchBuffer[i] == EmptyRecord
    ensures r.emitterDispatchCount == 0 && r.parameterByteCount == 0
    ensures r.partitionCount == 0 && r.groupParticleCount == 0
    ensures r.groupParticleCountInclusiveSum == b.groupParticleCountInclusiveSum
  {
    Builder(0, 0, 0, 0, b.groupParticleCountInclusiveSum,
      seq(b.emitterDispatchCount, _ => EmptyRecord),
      seq(b.partitionCount, _ => 0),
      seq(b.parameterByteCount, _ => 0 as byte))
  }

  // ---------------------------------------------------------------- AddEmitters

  /** Number of times the `while` loop in `AddEmitters` runs for a running count `g`:
      it subtracts 1024 while the count exceeds 1024. */
  function LoopSplits(g: nat): nat
  {
    if g > MaxGroup then (g - 1) / MaxGroup else 0
  }

  lemma LoopSplitsLeaves(g: nat)
    ensures g - MaxGroup * LoopSplits(g) <= MaxGroup
    ensures g > MaxGroup ==> g - MaxGroup * LoopSplits(g) > 0
    ensures g > MaxGroup ==> LoopSplits(g) >= 1
  {
  }

  /** The `while` loop (lines 120-127): one record per 1024 subtracted, each carrying
      the emitter type, its byte count (as the source passes it) and the running sum
      as it stood before this emitter. Returns the builder and the final `particleCount`. */
  function SplitGroups(b: Builder, t: FluidEmitterType, byteCount: nat, particleCount: nat)
    : (r: Result<(Builder, nat), BuildError>)
    ensures r.Ok? <==> LoopSplits(b.groupParticleCount) == 0
                       || b.emitterDispatchCount + LoopSplits(b.groupParticleCount) <= |b.emitterDispatchBuffer|
    ensures r.Ok? ==> var (b', pc) := r.value;
      && b'.emitterDispatchCount == b.emitterDispatchCount + LoopSplits(b.groupParticleCount)
      && b'.groupParticleCount == b.groupParticleCount - MaxGroup * LoopSplits(b.groupParticleCount)
      && b'.groupParticleCount <= MaxGroup
      && (b.groupParticleCount > MaxGroup ==> pc == b'.groupParticleCount > 0)
      && (b.groupParticleCount <= MaxGroup ==> pc == particleCount)
      && |b'.emitterDispatchBuffer| == |b.emitterDispatchBuffer|
      && (forall i :: 0 <= i < |b.emitterDispatchBuffer| ==>
            b'.emitterDispatchBuffer[i] ==
              if b.emitterDispatchCount <= i < b'.emitterDispatchCount
              then DispatchRecord(Ordinal(t), byteCount, b.groupParticleCountInclusiveSum)
              else b.emitterDispatchBuffer[i])
      && b' == b.(emitterDispatchCount := b'.emitterDispatchCount,
                  groupParticleCount := b'.groupParticleCount,
                  emitterDispatchBuffer := b'.emitterDispatchBuffer)
    decreases b.groupParticleCount
  {
    LoopSplitsLeaves(b.groupParticleCount);
    if b.groupParticleCount <= MaxGroup then
      Ok((b, particleCount))
    else if b.emitterDispatchCount >= |b.emitterDispatchBuffer| then
      Err(DispatchIndexOutOfRange(b.emitterDispatchCount))
    else
      var record := DispatchRecord(Ordinal(t), byteCount, b.groupParticleCountInclusiveSum);
      var g := b.groupParticleCount - MaxGroup;
      assert LoopSplits(g) == LoopSplits(b.groupParticleCount) - 1 by {
        if g > MaxGroup {
          assert (g - 1) / MaxGroup == (b.groupParticleCount - 1) / MaxGroup - 1;
        }
      }
      SplitGroups(b.(emitterDispatchBuffer := b.emitterDispatchBuffer[b.emitterDispatchCount := record],
                     emitterDispatchCount := b.emitterDispatchCount + 1,
                     groupParticleCount := g),
                  t, byteCount, g)
  }

  /** One iteration of the outer loop of `AddEmitters` as written: the emitter's
      parameters go to the slice at the running byte count, and its last record is
      written at `_emitterDispatchCount` WITHOUT advancing it. */
  function AddEmitter(b: Builder, e: EmitterView): (r: Result<Builder, BuildError>)
    ensures r.Ok? <==>
      && b.parameterByteCount + |e.parameters| <= |b.parameterBuffer|
      && b.emitterDispatchCount + LoopSplits(b.groupParticleCount + e.particleCount) < |b.emitterDispatchBuffer|
    ensures r.Ok? ==>
      && r.value.emitterDispatchCount == b.emitterDispatchCount + LoopSplits(b.groupParticleCount + e.particleCount)
      && r.value.groupParticleCount <= MaxGroup
      && r.value.groupParticleCount
         == b.groupParticleCount + e.particleCount - MaxGroup * LoopSplits(b.groupParticleCount + e.particleCount)
      && r.value.parameterByteCount == b.parameterByteCount + |e.parameters|
      && r.value.parameterBuffer == Splice(b.parameterBuffer, b.parameterByteCount, e.parameters)
      && r.value.groupParticleCountInclusiveSum >= b.groupParticleCountInclusiveSum
      && |r.value.emitterDispatchBuffer| == |b.emitterDispatchBuffer|
      && r.value.emitterDispatchBuffer[r.value.emitterDispatchCount]
         == DispatchRecord(Ordinal(e.emitterType), |e.parameters|, r.value.groupParticleCountInclusiveSum)
      && r.value.partitionCount == b.partitionCount
      && r.value.partitionBuffer == b.partitionBuffer
  {
    var byteCount := |e.parameters|;
    if b.parameterByteCount + byteCount > |b.parameterBuffer| then
      Err(ParameterSliceOutOfRange(b.parameterByteCount, byteCount))
    else
      var b1 := b.(parameterBuffer := Splice(b.parameterBuffer, b.parameterByteCount, e.parameters),
                   groupParticleCount := b.groupParticleCount + e.particleCount);
      match SplitGroups(b1, e.emitterType, byteCount, e.particleCount)
      case Err(err) => Err(err)
      case Ok((b2, particleCount)) =>
        var sum := b2.groupParticleCountInclusiveSum + particleCount;
        if b2.emitterDispatchCount >= |b2.emitterDispatchBuffer| then
          Err(DispatchIndexOutOfRange(b2.emitterDispatchCount))
        else
          Ok(b2.(groupParticleCountInclusiveSum := sum,
                 emitterDispatchBuffer := b2.emitterDispatchBuffer[b2.emitterDispatchCount :=
                   DispatchRecord(Ordinal(e.emitterType), byteCount, sum)],
                 parameterByteCount := b2.parameterByteCount + byteCount))
  }

  function AddEmittersLoop(b: Builder, es: seq<EmitterView>): (r: Result<Builder, BuildError>)
    ensures r.Ok? && b.parameterByteCount <= |b.parameterBuffer| ==>
      && b.parameterByteCount + TotalBytes(es) <= |b.parameterBuffer|
      && r.value.parameterByteCount == b.parameterByteCount + TotalBytes(es)
      && r.value.parameterBuffer == Splice(b.parameterBuffer, b.parameterByteCount, ConcatParameters(es))
      && |r.value.emitterDispatchBuffer| == |b.emitterDispatchBuffer|
    decreases |es|
  {
    if |es| == 0 then
      Ok(b)
    else
      match AddEmitter(b, es[0])
      case Err(err) => Err(err)
      case Ok(b1) =>
        var r := AddEmittersLoop(b1, es[1..]);
        if r.Ok? then
          SpliceTwice(b.parameterBuffer, b.parameterByteCount, es[0].parameters, ConcatParameters(es[1..]));
          r
        else r
  }

  lemma SpliceTwice(buffer: seq<byte>, start: nat, d1: seq<byte>, d2: seq<byte>)
    requires start + |d1| + |d2| <= |buffer|
    ensures Splice(Splice(buffer, start, d1), start + |d1|, d2) == Splice(buffer, start, d1 + d2)
  {
  }

  /** `AddEmitters(emitters)`: the loop, then `_emitterDispatchCount += emitters.Count`. */
  function AddEmitters(b: Builder, es: seq<EmitterView>): (r: Result<Builder, BuildError>)
    ensures r.Ok? && b.parameterByteCount <= |b.parameterBuffer| ==>
      r.value.parameterByteCount == b.parameterByteCount + TotalBytes(es)
    ensures r.Ok? && b.parameterByteCount <= |b.parameterBuffer| ==>
      b.parameterByteCount + TotalBytes(es) <= |b.parameterBuffer| &&
      r.value.parameterBuffer == Splice(b.parameterBuffer, b.parameterByteCount, ConcatParameters(es))
  {
    match AddEmittersLoop(b, es)
    case Err(err) => Err(err)
    case Ok(b1) => Ok(b1.(emitterDispatchCount := b1.emitterDispatchCount + |es|))
  }

  function AddAll(b: Builder, lists: seq<seq<EmitterView>>): (r: Result<Builder, BuildError>)
    ensures r.Ok? && b.parameterByteCount <= |b.parameterBuffer| ==>
      && b.parameterByteCount + TotalBytes(Flatten(lists)) <= |b.parameterBuffer|
      && r.value.parameterByteCount == b.parameterByteCount + TotalBytes(Flatten(lists))
      && r.value.parameterBuffer == Splice(b.parameterBuffer, b.parameterByteCount, ConcatParameters(Flatten(lists)))
    decreases |lists|
  {
    if |lists| == 0 then Ok(b)
    else
      match AddEmitters(b, lists[0])
      case Err(err) => Err(err)
      case Ok(b1) =>
        var r := AddAll(b1, lists[1..]);
        var l, f := lists[0], Flatten(lists[1..]);
        assert Flatten(lists) == l + f;
        TotalsAppend(l, f);
        if r.Ok? && b.parameterByteCount <= |b.parameterBuffer| then
          SpliceTwice(b.parameterBuffer, b.parameterByteCount, ConcatParameters(l), ConcatParameters(f));
          r
        else r
  }

  /** The whole two-pass protocol: `Reserve` per list, `Allocate`, `AddEmitters` per list. */
  function Build(lists: seq<seq<EmitterView>>): Result<Builder, BuildError>
  {
    AddAll(Allocate(ReserveAll(NewBuilder, lists)), lists)
  }

  // ---------------------------------------------------------------- bounds of the as-written pass

  /** How the filling pass `a` stands against the counting pass `r` over the same
      emitters: `extra` records were added by the `+= emitters.Count` steps, the rest
      of `a`'s dispatch count came from splits; the filling pass splits at most once
      more than the counting pass, and only when its running count sits at exactly 1024. */
  ghost predicate Tracks(a: Builder, r: Builder, extra: nat)
  {
    && a.emitterDispatchCount >= extra
    && a.groupParticleCount <= MaxGroup
    && r.groupParticleCount <= a.groupParticleCount
    && MaxGroup * (r.partitionCount - (a.emitterDispatchCount - extra))
       == a.groupParticleCount - r.groupParticleCount
  }

  /** One emitter through the `while` loop of the filling pass and through the
      `if` of the counting pass keeps the two in step, and the filling pass's
      split records never outnumber the partitions the counting pass reserved. */
  lemma TracksStep(a: Builder, r: Builder, extra: nat, e: EmitterView)
    requires Tracks(a, r, extra)
    ensures var h := a.groupParticleCount + e.particleCount;
            var k := LoopSplits(h);
            && Tracks(a.(emitterDispatchCount := a.emitterDispatchCount + k,
                         groupParticleCount := h - MaxGroup * k),
                      ReserveEmitter(r, e), extra)
            && a.emitterDispatchCount + k - extra <= ReserveEmitter(r, e).partitionCount
  {
    var h := a.groupParticleCount + e.particleCount;
    var k := LoopSplits(h);
    LoopSplitsLeaves(h);
    var r1 := ReserveEmitter(r, e);
    var gA := h - MaxGroup * k;
    var d := r1.partitionCount - (a.emitterDispatchCount + k - extra);
    assert MaxGroup * d == gA - r1.groupParticleCount;
    assert gA == 0 ==> r1.groupParticleCount == 0;
    MulSign(d, MaxGroup);
  }

  lemma {:induction false} AddLoopInBounds(a: Builder, r: Builder, es: seq<EmitterView>, extra: nat)
    requires Tracks(a, r, extra)
    requires |a.emitterDispatchBuffer| >= ReserveLoop(r, es).partitionCount + extra + |es|
    requires a.parameterByteCount + TotalBytes(es) <= |a.parameterBuffer|
    ensures AddEmittersLoop(a, es).Ok?
    ensures Tracks(AddEmittersLoop(a, es).value, ReserveLoop(r, es), extra)
    decreases |es|
  {
    if |es| > 0 {
      var e := es[0];
      var r1 := ReserveEmitter(r, e);
      AddEmitterInBounds(a, r, extra, e, ReserveLoop(r1, es[1..]).partitionCount);
      AddLoopInBounds(AddEmitter(a, e).value, r1, es[1..], extra);
    }
  }

  /** One emitter of the filling pass stays in bounds when the counting pass,
      continued over the remaining emitters, reserved `later` partitions. */
  lemma AddEmitterInBounds(a: Builder, r: Builder, extra: nat, e: EmitterView, later: nat)
    requires Tracks(a, r, extra)
    requires ReserveEmitter(r, e).partitionCount <= later
    requires |a.emitterDispatchBuffer| > later + extra
    requires a.parameterByteCount + |e.parameters| <= |a.parameterBuffer|
    ensures AddEmitter(a, e).Ok?
    ensures Tracks(AddEmitter(a, e).value, ReserveEmitter(r, e), extra)
    ensures |AddEmitter(a, e).value.emitterDispatchBuffer| == |a.emitterDispatchBuffer|
    ensures |AddEmitter(a, e).value.parameterBuffer| == |a.parameterBuffer|
    ensures AddEmitter(a, e).value.parameterByteCount == a.parameterByteCount + |e.parameters|
  {
    TracksStep(a, r, extra, e);
  }

  /** One `AddEmitters` call: in bounds, and the `+= emitters.Count` keeps the tracking. */
  lemma AddEmittersInBounds(a: Builder, r: Builder, l: seq<EmitterView>, extra: nat)
    requires Tracks(a, r, extra)
    requires |a.emitterDispatchBuffer| >= ReserveLoop(r, l).partitionCount + extra + |l|
    requires a.parameterByteCount + TotalBytes(l) <= |a.parameterBuffer|
    ensures AddEmitters(a, l).Ok?
    ensures Tracks(AddEmitters(a, l).value, ReserveLoop(r, l), extra + |l|)
    ensures |AddEmitters(a, l).value.emitterDispatchBuffer| == |a.emitterDispatchBuffer|
    ensures |AddEmitters(a, l).value.parameterBuffer| == |a.parameterBuffer|
  {
    AddLoopInBounds(a, r, l, extra);
  }

  lemma {:induction false} AddAllInBounds(a: Builder, r: Builder, lists: seq<seq<EmitterView>>, extra: nat)
    requires Tracks(a, r, extra)
    requires |a.emitterDispatchBuffer| >= ReserveLoop(r, Flatten(lists)).partitionCount + extra + |Flatten(lists)|
    requires a.parameterByteCount + TotalBytes(Flatten(lists)) <= |a.parameterBuffer|
    ensures AddAll(a, lists).Ok?
    ensures Tracks(AddAll(a, lists).value, ReserveLoop(r, Flatten(lists)), extra + |Flatten(lists)|)
    ensures |AddAll(a, lists).value.emitterDispatchBuffer| == |a.emitterDispatchBuffer|
    decreases |lists|
  {
    if |lists| > 0 {
      var l, rest := lists[0], lists[1..];
      FlattenAppend(r, l, Flatten(rest), lists);
      AddEmittersInBounds(a, r, l, extra);
      AddAllInBounds(AddEmitters(a, l).value, ReserveLoop(r, l), rest, extra + |l|);
    }
  }

  lemma FlattenAppend(r: Builder, l: seq<EmitterView>, f: seq<EmitterView>, lists: seq<seq<EmitterView>>)
    requires |lists| > 0 && l == lists[0] && f == Flatten(lists[1..])
    ensures Flatten(lists) == l + f
    ensures ReserveLoop(r, Flatten(lists)) == ReserveLoop(ReserveLoop(r, l), f)
    ensures ReserveLoop(r, l).partitionCount <= ReserveLoop(r, Flatten(lists)).partitionCount
    ensures TotalBytes(Flatten(lists)) == TotalBytes(l) + TotalBytes(f)
    ensures |Flatten(lists)| == |l| + |f|
  {
    ReserveLoopAppend(r, l, f);
    TotalsAppend(l, f);
  }

  /** Every write into the dispatch array stays below the length `Allocate` gave
      it, every parameter slice lies inside the parameter array, the slices are
      laid back to back and fill it exactly, and the final dispatch count does
      not exceed the reserved one. */
  lemma BuildInBounds(lists: seq<seq<EmitterView>>)
    ensures Build(lists).Ok?
    ensures Build(lists).value.parameterBuffer == ConcatParameters(Flatten(lists))
    ensures Build(lists).value.parameterByteCount == |Build(lists).value.parameterBuffer|
    ensures Build(lists).value.emitterDispatchCount <= |Build(lists).value.emitterDispatchBuffer|
  {
    var flat := Flatten(lists);
    var rl := ReserveLoop(NewBuilder, flat);
    ReserveAllIsFlatLoop(NewBuilder, lists);
    var a0 := Allocate(ReserveAll(NewBuilder, lists));
    assert |a0.emitterDispatchBuffer| == rl.partitionCount + |flat|;
    assert |a0.parameterBuffer| == TotalBytes(flat);
    AddAllInBounds(a0, NewBuilder, lists, 0);
    var res := AddAll(a0, lists).value;
    MulSign(rl.partitionCount - (res.emitterDispatchCount - |flat|), MaxGroup);
    SpliceWhole(a0.parameterBuffer, ConcatParameters(flat));
  }

  lemma SpliceWhole(buffer: seq<byte>, data: seq<byte>)
    requires |data| == |buffer|
    ensures Splice(buffer, 0, data) == data
  {
  }

  // ---------------------------------------------------------------- what the as-written pass stores

  /** One list of two cube emitters with one particle each and parameter bytes `p`
      and `q`. */
  function ExampleLists(p: seq<byte>, q: seq<byte>): seq<seq<EmitterView>>
  {
    [[EmitterView(Cube, 1, p), EmitterView(Cube, 1, q)]]
  }

  /** Two cube emitters with one particle each and 4 and 8 parameter bytes: the
      first emitter's record is overwritten by the second's, slot 1 stays empty
      although the dispatch count says 2, and the surviving record's offset is 8
      (the byte count) where the second emitter's bytes start at 4. */
  lemma AddEmittersOverwritesRecords(p: seq<byte>, q: seq<byte>)
    requires |p| == 4 && |q| == 8
    ensures Build(ExampleLists(p, q)).Ok?
    ensures Build(ExampleLists(p, q)).value.emitterDispatchCount == 2
    ensures Build(ExampleLists(p, q)).value.emitterDispatchBuffer == [DispatchRecord(1, 8, 2), EmptyRecord]
  {
    var a0 := ExampleAllocated(p, q);
    var r := ExampleAdded(a0, p, q);
    AddAllSingle(a0, ExampleLists(p, q));
  }

  /** On a single list, `AddAll` is one `AddEmitters` call. */
  lemma AddAllSingle(b: Builder, lists: seq<seq<EmitterView>>)
    requires |lists| == 1
    ensures AddAll(b, lists) == AddEmitters(b, lists[0])
  {
    assert lists[1..] == [];
  }

  /** `AddEmitters` on the example's one list: the loop's records, then the count raised
      by the list's two emitters. */
  function ExampleAdded(a0: Builder, p: seq<byte>, q: seq<byte>): (r: Builder)
    requires |p| == 4 && |q| == 8
    requires a0 == Builder(0, 0, 0, 0, 0, [EmptyRecord, EmptyRecord], [], seq(12, _ => 0 as byte))
    ensures AddEmitters(a0, ExampleLists(p, q)[0]) == Ok(r)
    ensures r.emitterDispatchCount == 2
    ensures r.emitterDispatchBuffer == [DispatchRecord(1, 8, 2), EmptyRecord]
  {
    var a2 := ExampleFilled(a0, p, q);
    a2.(emitterDispatchCount := 2)
  }

  /** The buffers the counting pass sizes for the example: two record slots and 12
      parameter bytes. */
  function ExampleAllocated(p: seq<byte>, q: seq<byte>): (a0: Builder)
    requires |p| == 4 && |q| == 8
    ensures a0 == Allocate(ReserveAll(NewBuilder, ExampleLists(p, q)))
    ensures a0 == Builder(0, 0, 0, 0, 0, [EmptyRecord, EmptyRecord], [], seq(12, _ => 0 as byte))
  {
    var l := ExampleLists(p, q)[0];
    assert Flatten(ExampleLists(p, q)) == l;
    assert ReserveAll(NewBuilder, ExampleLists(p, q)) == Reserve(NewBuilder, l);
    var b0 := NewBuilder.(emitterDispatchCount := 2);
    var b2 := ReserveEmitter(ReserveEmitter(b0, l[0]), l[1]);
    assert ReserveLoop(b0, l) == b2 by {
      assert l[1..][1..] == [];
    }
    assert b2 == Builder(2, 12, 0, 2, 0, [], [], []);
    var a0 := Allocate(b2);
    assert a0.emitterDispatchBuffer == [EmptyRecord, EmptyRecord];
    assert a0.partitionBuffer == [];
    a0
  }

  /** The filling loop on the example writes both emitters' records into slot 0. */
  function ExampleFilled(a0: Builder, p: seq<byte>, q: seq<byte>): (a2: Builder)
    requires |p| == 4 && |q| == 8
    requires a0 == Builder(0, 0, 0, 0, 0, [EmptyRecord, EmptyRecord], [], seq(12, _ => 0 as byte))
    ensures AddEmittersLoop(a0, ExampleLists(p, q)[0]) == Ok(a2)
    ensures a2.emitterDispatchCount == 0
    ensures a2.emitterDispatchBuffer == [DispatchRecord(1, 8, 2), EmptyRecord]
  {
    var l := ExampleLists(p, q)[0];
    var a1 := AddEmitter(a0, l[0]).value;
    assert a1.emitterDispatchBuffer == [DispatchRecord(1, 4, 1), EmptyRecord];
    var a2 := AddEmitter(a1, l[1]).value;
    assert a2.emitterDispatchBuffer == [DispatchRecord(1, 8, 2), EmptyRecord];
    assert AddEmittersLoop(a0, l) == Ok(a2) by {
      assert AddEmitter(a0, l[0]) == Ok(a1) && AddEmitter(a1, l[1]) == Ok(a2);
      assert l[1..][0] == l[1] && l[1..][1..] == [];
      assert AddEmittersLoop(a2, l[1..][1..]) == Ok(a2);
      assert AddEmittersLoop(a1, l[1..]) == Ok(a2);
    }
    a2
  }

  // ---------------------------------------------------------------- corrected filling pass

  /** The filling pass as evidently intended: each record of an emitter carries the
      offset at which its parameter slice starts, and its last record takes a slot
      of its own (`_emitterDispatchCount++`), so no `+= emitters.Count` follows the loop. */
  function AddEmitterFixed(b: Builder, e: EmitterView): (r: Result<Builder, BuildError>)
    ensures r.Ok? <==>
      && b.parameterByteCount + |e.parameters| <= |b.parameterBuffer|
      && b.emitterDispatchCount + LoopSplits(b.groupParticleCount + e.particleCount) < |b.emitterDispatchBuffer|
    ensures r.Ok? ==>
      && r.value.emitterDispatchCount == b.emitterDispatchCount + LoopSplits(b.groupParticleCount + e.particleCount) + 1
      && r.value.groupParticleCount
         == b.groupParticleCount + e.particleCount - MaxGroup * LoopSplits(b.groupParticleCount + e.particleCount)
      && r.value.parameterByteCount == b.parameterByteCount + |e.parameters|
      && r.value.parameterBuffer == Splice(b.parameterBuffer, b.parameterByteCount, e.parameters)
      && r.value.groupParticleCountInclusiveSum >= b.groupParticleCountInclusiveSum
      && |r.value.emitterDispatchBuffer| == |b.emitterDispatchBuffer|
      && r.value.emitterDispatchBuffer[r.value.emitterDispatchCount - 1]
         == DispatchRecord(Ordinal(e.emitterType), b.parameterByteCount, r.value.groupParticleCountInclusiveSum)
      && (forall i :: 0 <= i < |b.emitterDispatchBuffer| ==>
            r.value.emitterDispatchBuffer[i] ==
              if i < b.emitterDispatchCount then b.emitterDispatchBuffer[i]
              else if i < r.value.emitterDispatchCount - 1
              then DispatchRecord(Ordinal(e.emitterType), b.parameterByteCount, b.groupParticleCountInclusiveSum)
              else if i == r.value.emitterDispatchCount - 1
              then DispatchRecord(Ordinal(e.emitterType), b.parameterByteCount, r.value.groupParticleCountInclusiveSum)
              else b.emitterDispatchBuffer[i])
  {
    var offset := b.parameterByteCount;
    if offset + |e.parameters| > |b.parameterBuffer| then
      Err(ParameterSliceOutOfRange(offset, |e.parameters|))
    else
      var b1 := b.(parameterBuffer := Splice(b.parameterBuffer, offset, e.parameters),
                   groupParticleCount := b.groupParticleCount + e.particleCount);
      match SplitGroups(b1, e.emitterType, offset, e.particleCount)
      case Err(err) => Err(err)
      case Ok((b2, particleCount)) =>
        var sum := b2.groupParticleCountInclusiveSum + particleCount;
        if b2.emitterDispatchCount >= |b2.emitterDispatchBuffer| then
          Err(DispatchIndexOutOfRange(b2.emitterDispatchCount))
        else
          Ok(b2.(groupParticleCountInclusiveSum := sum,
                 emitterDispatchBuffer := b2.emitterDispatchBuffer[b2.emitterDispatchCount :=
                   DispatchRecord(Ordinal(e.emitterType), offset, sum)],
                 emitterDispatchCount := b2.emitterDispatchCount + 1,
                 parameterByteCount := offset + |e.parameters|))
  }

  /** The corrected `AddEmitters`: the loop alone. */
  function AddEmittersFixed(b: Builder, es: seq<EmitterView>): (r: Result<Builder, BuildError>)
    ensures r.Ok? && b.parameterByteCount <= |b.parameterBuffer| ==>
      && b.parameterByteCount + TotalBytes(es) <= |b.parameterBuffer|
      && r.value.parameterByteCount == b.parameterByteCount + TotalBytes(es)
      && r.value.parameterBuffer == Splice(b.parameterBuffer, b.parameterByteCount, ConcatParameters(es))
    ensures r.Ok? ==>
      && |r.value.emitterDispatchBuffer| == |b.emitterDispatchBuffer|
      && r.value.emitterDispatchCount >= b.emitterDispatchCount + |es|
      && (forall i :: 0 <= i < b.emitterDispatchCount && i < |b.emitterDispatchBuffer| ==>
            r.value.emitterDispatchBuffer[i] == b.emitterDispatchBuffer[i])
    decreases |es|
  {
    if |es| == 0 then
      Ok(b)
    else
      match AddEmitterFixed(b, es[0])
      case Err(err) => Err(err)
      case Ok(b1) =>
        var r := AddEmittersFixed(b1, es[1..]);
        if r.Ok? then
          SpliceTwice(b.parameterBuffer, b.parameterByteCount, es[0].parameters, ConcatParameters(es[1..]));
          r
        else r
  }

  /** The corrected protocol. With no per-call step left in `AddEmitters`, calling it
      once per list is the same as calling it once on the lists laid end to end. */
  function BuildFixed(lists: seq<seq<EmitterView>>): Result<Builder, BuildError>
  {
    AddEmittersFixed(Allocate(ReserveAll(NewBuilder, lists)), Flatten(lists))
  }

  lemma AddEmitterFixedInBounds(a: Builder, r: Builder, extra: nat, e: EmitterView, later: nat)
    requires Tracks(a, r, extra)
    requires ReserveEmitter(r, e).partitionCount <= later
    requires |a.emitterDispatchBuffer| > later + extra
    requires a.parameterByteCount + |e.parameters| <= |a.parameterBuffer|
    ensures AddEmitterFixed(a, e).Ok?
    ensures Tracks(AddEmitterFixed(a, e).value, ReserveEmitter(r, e), extra + 1)
    ensures |AddEmitterFixed(a, e).value.parameterBuffer| == |a.parameterBuffer|
    ensures AddEmitterFixed(a, e).value.parameterByteCount == a.parameterByteCount + |e.parameters|
  {
    TracksStep(a, r, extra, e);
  }

  lemma {:induction false} AddFixedInBounds(a: Builder, r: Builder, es: seq<EmitterView>, extra: nat)
    requires Tracks(a, r, extra)
    requires |a.emitterDispatchBuffer| >= ReserveLoop(r, es).partitionCount + extra + |es|
    requires a.parameterByteCount + TotalBytes(es) <= |a.parameterBuffer|
    ensures AddEmittersFixed(a, es).Ok?
    ensures Tracks(AddEmittersFixed(a, es).value, ReserveLoop(r, es), extra + |es|)
    decreases |es|
  {
    if |es| > 0 {
      var e := es[0];
      var r1 := ReserveEmitter(r, e);
      AddEmitterFixedInBounds(a, r, extra, e, ReserveLoop(r1, es[1..]).partitionCount);
      AddFixedInBounds(AddEmitterFixed(a, e).value, r1, es[1..], extra + 1);
    }
  }

  /** Whether record `d` belongs to an emitter of type `t` whose parameters start at `offset`. */
  predicate RecordOf(d: DispatchRecord, t: FluidEmitterType, offset: nat)
  {
    d.emitterType == Ordinal(t) && d.parameterOffset == offset
  }

  /** Where emitter `k`'s parameter slice starts: after the bytes of emitters 0..k-1. */
  function ParameterOffset(es: seq<EmitterView>, k: nat): nat
    requires k <= |es|
  {
    TotalBytes(es[..k])
  }

  lemma {:induction false} ConcatSlice(es: seq<EmitterView>, k: nat)
    requires k < |es|
    ensures ParameterOffset(es, k) + |es[k].parameters| <= |ConcatParameters(es)|
    ensures ConcatParameters(es)[ParameterOffset(es, k)..ParameterOffset(es, k) + |es[k].parameters|]
         == es[k].parameters
  {
    assert es == es[..k] + es[k..];
    TotalsAppend(es[..k], es[k..]);
    assert es[k..][1..] == es[k + 1..];
  }

  /** Some record in slots `lo..` below the dispatch count belongs to type `t` at `offset`. */
  ghost predicate HasRecord(b: Builder, lo: nat, t: FluidEmitterType, offset: nat)
  {
    exists j :: lo <= j < b.emitterDispatchCount && j < |b.emitterDispatchBuffer|
      && RecordOf(b.emitterDispatchBuffer[j], t, offset)
  }

  /** The first emitter's last record survives the rest of the corrected loop. */
  lemma FixedFirstRecordKept(a: Builder, es: seq<EmitterView>)
    requires |es| > 0 && AddEmittersFixed(a, es).Ok?
    ensures AddEmitterFixed(a, es[0]).Ok?
    ensures AddEmittersFixed(AddEmitterFixed(a, es[0]).value, es[1..]) == AddEmittersFixed(a, es)
    ensures AddEmitterFixed(a, es[0]).value.emitterDispatchCount >= a.emitterDispatchCount
    ensures AddEmitterFixed(a, es[0]).value.parameterByteCount == a.parameterByteCount + |es[0].parameters|
    ensures HasRecord(AddEmittersFixed(a, es).value, a.emitterDispatchCount, es[0].emitterType, a.parameterByteCount)
  {
    var a1 := AddEmitterFixed(a, es[0]).value;
    var res := AddEmittersFixed(a, es).value;
    var j := a1.emitterDispatchCount - 1;
    assert RecordOf(res.emitterDispatchBuffer[j], es[0].emitterType, a.parameterByteCount);
  }

  lemma ParameterOffsetStep(es: seq<EmitterView>, k: nat)
    requires 0 < k <= |es|
    ensures ParameterOffset(es, k) == |es[0].parameters| + ParameterOffset(es[1..], k - 1)
  {
    assert es[..k][1..] == es[1..][..k - 1];
  }

  /** A record found from slot `lo` on is found from any earlier slot on. */
  lemma HasRecordFrom(b: Builder, lo: nat, lo': nat, t: FluidEmitterType, offset: nat)
    requires lo' <= lo && HasRecord(b, lo, t, offset)
    ensures HasRecord(b, lo', t, offset)
  {
    var j :| lo <= j < b.emitterDispatchCount && j < |b.emitterDispatchBuffer|
      && RecordOf(b.emitterDispatchBuffer[j], t, offset);
  }

  /** In the corrected pass every emitter keeps a record of its own that names its
      type and the offset of its parameter slice. */
  lemma {:induction false} FixedRecordsKept(a: Builder, es: seq<EmitterView>)
    requires AddEmittersFixed(a, es).Ok?
    ensures forall k :: 0 <= k < |es| ==>
      HasRecord(AddEmittersFixed(a, es).value, a.emitterDispatchCount, es[k].emitterType,
                a.parameterByteCount + ParameterOffset(es, k))
    decreases |es|
  {
    if |es| > 0 {
      FixedFirstRecordKept(a, es);
      var a1 := AddEmitterFixed(a, es[0]).value;
      var res := AddEmittersFixed(a, es).value;
      FixedRecordsKept(a1, es[1..]);
      forall k | 0 <= k < |es|
        ensures HasRecord(res, a.emitterDispatchCount, es[k].emitterType, a.parameterByteCount + ParameterOffset(es, k))
      {
        if k > 0 {
          ParameterOffsetStep(es, k);
          assert es[k] == es[1..][k - 1];
          HasRecordFrom(res, a1.emitterDispatchCount, a.emitterDispatchCount, es[k].emitterType,
                        a1.parameterByteCount + ParameterOffset(es[1..], k - 1));
        }
      }
    }
  }

  /** Records are ordered by running sum and none exceeds the current one. */
  ghost predicate SumsOrdered(b: Builder)
  {
    && b.emitterDispatchCount <= |b.emitterDispatchBuffer|
    && (forall i, j :: 0 <= i <= j < b.emitterDispatchCount ==>
          b.emitterDispatchBuffer[i].particleCountInclusiveSum <= b.emitterDispatchBuffer[j].particleCountInclusiveSum)
    && (forall i :: 0 <= i < b.emitterDispatchCount ==>
          b.emitterDispatchBuffer[i].particleCountInclusiveSum <= b.groupParticleCountInclusiveSum)
  }

  /** In the corrected pass `ParticleCountInclusiveSum` is non-decreasing across the records. */
  lemma {:induction false} FixedSumsOrdered(a: Builder, es: seq<EmitterView>)
    requires SumsOrdered(a)
    requires AddEmittersFixed(a, es).Ok?
    ensures SumsOrdered(AddEmittersFixed(a, es).value)
    decreases |es|
  {
    if |es| > 0 {
      var a1 := AddEmitterFixed(a, es[0]).value;
      FixedStepSumsOrdered(a, es[0]);
      assert AddEmittersFixed(a, es) == AddEmittersFixed(a1, es[1..]);
      FixedSumsOrdered(a1, es[1..]);
    }
  }

  /** One corrected emitter keeps the running sums ordered: its records carry the old sum
      and then the new, larger one. */
  lemma FixedStepSumsOrdered(a: Builder, e: EmitterView)
    requires SumsOrdered(a)
    requires AddEmitterFixed(a, e).Ok?
    ensures SumsOrdered(AddEmitterFixed(a, e).value)
  {
    var a1 := AddEmitterFixed(a, e).value;
    var buf := a1.emitterDispatchBuffer;
    forall i | 0 <= i < a1.emitterDispatchCount
      ensures a.groupParticleCountInclusiveSum <= a1.groupParticleCountInclusiveSum
      ensures buf[i].particleCountInclusiveSum <= a1.groupParticleCountInclusiveSum
      ensures i < a.emitterDispatchCount ==>
        buf[i].particleCountInclusiveSum <= a.groupParticleCountInclusiveSum
      ensures i >= a.emitterDispatchCount ==>
        buf[i].particleCountInclusiveSum >= a.groupParticleCountInclusiveSum
    {
    }
  }

  /** `buffer` holds `data` from `offset` on. */
  predicate SliceHolds(buffer: seq<byte>, offset: nat, data: seq<byte>)
  {
    offset + |data| <= |buffer| && buffer[offset..offset + |data|] == data
  }

  /** Every emitter of `es` finds its bytes at its offset and a record of its type pointing there. */
  ghost predicate PlacesEveryEmitter(res: Builder, es: seq<EmitterView>)
  {
    forall k :: 0 <= k < |es| ==>
      && SliceHolds(res.parameterBuffer, ParameterOffset(es, k), es[k].parameters)
      && HasRecord(res, 0, es[k].emitterType, ParameterOffset(es, k))
  }

  /** The state `Allocate` leaves after the counting pass over `lists`. */
  lemma AllocatedState(lists: seq<seq<EmitterView>>)
    ensures var a0 := Allocate(ReserveAll(NewBuilder, lists)); var flat := Flatten(lists);
      && Tracks(a0, NewBuilder, 0)
      && |a0.emitterDispatchBuffer| == ReserveLoop(NewBuilder, flat).partitionCount + |flat|
      && a0.parameterByteCount == 0 && |a0.parameterBuffer| == TotalBytes(flat)
      && SumsOrdered(a0)
  {
    ReserveAllIsFlatLoop(NewBuilder, lists);
  }

  /** The corrected protocol stays in bounds, lays the parameters out back to back,
      keeps the records' running sums ordered, and leaves, for every emitter, a
      record of its type pointing at its own bytes. */
  lemma BuildFixedPlacesEveryEmitter(lists: seq<seq<EmitterView>>)
    ensures BuildFixed(lists).Ok?
    ensures BuildFixed(lists).value.parameterBuffer == ConcatParameters(Flatten(lists))
    ensures BuildFixed(lists).value.emitterDispatchCount <= |BuildFixed(lists).value.emitterDispatchBuffer|
    ensures SumsOrdered(BuildFixed(lists).value)
    ensures PlacesEveryEmitter(BuildFixed(lists).value, Flatten(lists))
  {
    var flat := Flatten(lists);
    var a0 := Allocate(ReserveAll(NewBuilder, lists));
    AllocatedState(lists);
    AddFixedInBounds(a0, NewBuilder, flat, 0);
    var res := AddEmittersFixed(a0, flat).value;
    MulSign(ReserveLoop(NewBuilder, flat).partitionCount - (res.emitterDispatchCount - |flat|), MaxGroup);
    SpliceWhole(a0.parameterBuffer, ConcatParameters(flat));
    FixedSumsOrdered(a0, flat);
    FixedRecordsKept(a0, flat);
    forall k | 0 <= k < |flat|
      ensures SliceHolds(res.parameterBuffer, ParameterOffset(flat, k), flat[k].parameters)
    {
      ConcatSlice(flat, k);
    }
  }
}
