/** Failure-carrying results: the source's exceptions and error returns become `Err`. */
module Wrappers {

  datatype Option<+T> = None | Some(value: T)

  datatype Result<+T, +E> = Ok(value: T) | Err(error: E) {
    predicate IsFailure() {
      Err?
    }

    function PropagateFailure<U>(): Result<U, E>
      requires Err?
    {
      Err(error)
    }

    function Extract(): T
      requires Ok?
    {
      value
    }
  }
}

/** Integer helpers shared by the layout computations: powers of two, C#'s shift
    semantics, ceiling division, clamping and sums. */
module IntMath {

  const Int32Max: int := 0x7FFF_FFFF
  const Int32Min: int := -0x8000_0000

  const UInt32Modulus: nat := 0x1_0000_0000

  /** A C# `uint`. */
  type UInt32 = x: nat | x < UInt32Modulus

  /** `x` fits a C# `int`. */
  predicate IsInt32(x: int)
  {
    Int32Min <= x <= Int32Max
  }

  /** A C# `int` field or variable. */
  type Int32 = x: int | IsInt32(x)

  function Pow2(k: nat): (r: nat)
    ensures r >= 1
  {
    if k == 0 then 1 else 2 * Pow2(k - 1)
  }

  lemma Pow2Add(a: nat, b: nat)
    ensures Pow2(a + b) == Pow2(a) * Pow2(b)
  {
    if a > 0 {
      Pow2Add(a - 1, b);
    }
  }

  lemma Pow2Of31()
    ensures Pow2(31) == 0x8000_0000
  {
    assert Pow2(8) == 0x100;
    assert Pow2(7) == 0x80;
    Pow2Add(8, 8);
    Pow2Add(8, 7);
    Pow2Add(16, 15);
  }

  lemma Pow2Monotone(a: nat, b: nat)
    requires a <= b
    ensures Pow2(a) <= Pow2(b)
  {
    if a < b {
      Pow2Monotone(a, b - 1);
    }
  }

  /** `x >> count` on a C# `int`: the count is masked to its low five bits
      (`count & 31`, which is Euclidean `count % 32` for every int count) and the
      shift is arithmetic, i.e. a floor division by the power of two. */
  function ShiftRight(x: int, count: int): int
  {
    x / Pow2(count % 32)
  }

  /** Shifting a non-negative value right keeps it non-negative and never increases it. */
  lemma ShiftRightNonNegative(x: nat, count: int)
    ensures 0 <= ShiftRight(x, count) <= x
  {
    var d := Pow2(count % 32);
    DivMonotone(0, x, d);
    assert x == (x / d) * d + x % d;
    MulSign(x / d, d);
  }

  /** Dividing by `a` and then by `b` is dividing by `a * b`. */
  lemma DivDiv(x: int, a: int, b: int)
    requires a > 0 && b > 0
    ensures (x / a) / b == x / (a * b)
  {
    var q1, r1 := x / a, x % a;
    var q2, r2 := q1 / b, q1 % b;
    assert q1 * a == q2 * (a * b) + r2 * a by {
      assert q1 == q2 * b + r2;
    }
    assert r2 * a <= (b - 1) * a by {
      MulSign(b - 1 - r2, a);
    }
    DivUnique(x, a * b, q2, r2 * a + r1);
  }

  /** `x` halved (floor) `n` times: the extent of mip level `n` of an extent `x`. */
  function HalveTimes(x: int, n: nat): int
  {
    if n == 0 then x else HalveTimes(x, n - 1) / 2
  }

  /** A right shift by a count below 32 halves the value that many times. */
  lemma {:induction false} ShiftRightIsHalving(x: int, n: nat)
    requires n < 32
    ensures ShiftRight(x, n) == HalveTimes(x, n)
  {
    assert n % 32 == n;
    if n > 0 {
      ShiftRightIsHalving(x, n - 1);
      assert (n - 1) % 32 == n - 1;
      var d := Pow2(n - 1);
      DivDiv(x, d, 2);
      assert d * 2 == Pow2(n);
    }
  }

  /** Bitwise or of two non-negative values, bit by bit from the lowest. */
  function BitOr(a: nat, b: nat): nat
    decreases a + b
  {
    if a == 0 && b == 0 then 0
    else 2 * BitOr(a / 2, b / 2) + (if a % 2 == 1 || b % 2 == 1 then 1 else 0)
  }

  lemma {:induction false} BitOrZero(a: nat)
    ensures BitOr(a, 0) == a && BitOr(0, a) == a
    decreases a
  {
    if a > 0 {
      BitOrZero(a / 2);
    }
  }

  /** Or-ing a value into the bits below `a * 2^k` that it fits in is adding it. */
  lemma {:induction false} BitOrShifted(a: nat, b: nat, k: nat)
    requires b < Pow2(k)
    ensures BitOr(a * Pow2(k), b) == a * Pow2(k) + b
  {
    if k == 0 {
      BitOrZero(a);
    } else {
      var m := a * Pow2(k - 1);
      assert a * Pow2(k) == 2 * m;
      if m == 0 && b == 0 {
      } else {
        BitOrShifted(a, b / 2, k - 1);
      }
    }
  }

  /** Integer division `(n + d - 1) / d`, the source's idiom for a group count. */
  function CeilDiv(n: nat, d: nat): nat
    requires d > 0
  {
    (n + d - 1) / d
  }

  /** `CeilDiv(n, d)` groups of `d` threads cover `n` items, and no smaller count does. */
  lemma CeilDivIsLeastCover(n: nat, d: nat)
    requires d > 0
    ensures CeilDiv(n, d) * d >= n
    ensures forall g: nat :: g * d >= n ==> g >= CeilDiv(n, d)
  {
    var q := CeilDiv(n, d);
    assert q * d + (n + d - 1) % d == n + d - 1;
    forall g: nat | g * d >= n
      ensures g >= q
    {
      DivExact(g, d - 1, d);
      DivMonotone(n + d - 1, g * d + d - 1, d);
    }
  }

  lemma MulSign(x: int, d: int)
    requires d > 0
    ensures x >= 1 ==> x * d >= d
    ensures x <= -1 ==> x * d <= -d
  {
  }

  /** Division is determined by any quotient-remainder decomposition. */
  lemma DivUnique(a: int, d: int, q: int, r: int)
    requires d > 0 && 0 <= r < d && a == q * d + r
    ensures a / d == q
  {
    var q0, r0 := a / d, a % d;
    assert (q - q0) * d == r0 - r;
    MulSign(q - q0, d);
  }

  lemma DivExact(q: nat, r: nat, d: nat)
    requires r < d
    ensures (q * d + r) / d == q
  {
    DivUnique(q * d + r, d, q, r);
  }

  lemma DivMonotone(a: nat, b: nat, d: nat)
    requires a <= b && d > 0
    ensures a / d <= b / d
  {
    var qa, qb := a / d, b / d;
    assert (qa - qb) * d == (a - b) + (b % d - a % d);
    MulSign(qa - qb, d);
  }

  function Clamp(x: int, lo: int, hi: int): (r: int)
    requires lo <= hi
    ensures lo <= r <= hi
    ensures lo <= x <= hi ==> r == x
    ensures x < lo ==> r == lo
    ensures x > hi ==> r == hi
  {
    if x < lo then lo else if x > hi then hi else x
  }

  function Max(a: int, b: int): int
  {
    if a < b then b else a
  }

  function Min(a: int, b: int): int
  {
    if a < b then a else b
  }

  function Sum(s: seq<int>): int
  {
    if |s| == 0 then 0 else Sum(s[..|s| - 1]) + s[|s| - 1]
  }

  lemma SumAppend(a: seq<int>, b: seq<int>)
    ensures Sum(a + b) == Sum(a) + Sum(b)
    decreases |b|
  {
    if |b| == 0 {
      assert a + b == a;
    } else {
      assert (a + b)[..|a + b| - 1] == a + b[..|b| - 1];
      SumAppend(a, b[..|b| - 1]);
    }
  }

  lemma SumCons(x: int, s: seq<int>)
    ensures Sum([x] + s) == x + Sum(s)
  {
    SumAppend([x], s);
    assert [x][..0] == [];
  }

  lemma SumNonNegative(s: seq<int>)
    requires forall i :: 0 <= i < |s| ==> s[i] >= 0
    ensures Sum(s) >= 0
  {
    if |s| > 0 {
      SumNonNegative(s[..|s| - 1]);
    }
  }

  lemma SumPrefixMonotone(s: seq<int>, i: nat, j: nat)
    requires i <= j <= |s|
    requires forall k :: 0 <= k < |s| ==> s[k] >= 0
    ensures Sum(s[..i]) <= Sum(s[..j])
  {
    assert s[..j] == s[..i] + s[i..j];
    SumAppend(s[..i], s[i..j]);
    SumNonNegative(s[i..j]);
  }
}

/** Three-component integer vectors (Unity's `Vector3Int`), with the axis indexer
    `v[0]`, `v[1]`, `v[2]` the source uses. */
module Vectors {

  type Axis = i: int | 0 <= i < 3

  datatype Int3 = Int3(x: int, y: int, z: int) {

    function Get(axis: Axis): int
    {
      if axis == 0 then x else if axis == 1 then y else z
    }

    function Set(axis: Axis, v: int): (r: Int3)
      ensures r.Get(axis) == v
      ensures forall a: Axis :: a != axis ==> r.Get(a) == Get(a)
    {
      if axis == 0 then this.(x := v) else if axis == 1 then this.(y := v) else this.(z := v)
    }

    /** Component-wise C# integer division by a positive constant (non-negative components). */
    function Div(d: int): Int3
      requires d > 0
    {
      Int3(x / d, y / d, z / d)
    }

    function Mul(k: int): Int3
    {
      Int3(x * k, y * k, z * k)
    }

    function Sub(o: Int3): Int3
    {
      Int3(x - o.x, y - o.y, z - o.z)
    }

    function Volume(): int
    {
      x * y * z
    }

    predicate NonNegative()
    {
      x >= 0 && y >= 0 && z >= 0
    }
  }

  const Zero3 := Int3(0, 0, 0)

  /** Three-component real vectors stand for Unity's float `Vector3`. */
  datatype Real3 = Real3(x: real, y: real, z: real)

  const ZeroR3 := Real3(0.0, 0.0, 0.0)
}

/** Sequence updates shared by the modules. */
module SeqOps {

  /** `data` written over `s` from index `offset` on; the rest of `s` is kept. */
  function Splice<T>(s: seq<T>, offset: nat, data: seq<T>): (r: seq<T>)
    requires offset + |data| <= |s|
    ensures |r| == |s|
    ensures r[offset..offset + |data|] == data
    ensures r[..offset] == s[..offset] && r[offset + |data|..] == s[offset + |data|..]
    ensures forall i :: 0 <= i < |s| && !(offset <= i < offset + |data|) ==> r[i] == s[i]
  {
    var r := s[..offset] + data + s[offset + |data|..];
    assert forall i :: offset <= i < offset + |data| ==> r[i] == data[i - offset];
    r
  }

  /** A splice leaves every slice that does not overlap the written range unchanged. */
  lemma SpliceKeepsSlice<T>(s: seq<T>, offset: nat, data: seq<T>, o: nat, len: nat)
    requires offset + |data| <= |s| && o + len <= |s|
    requires o + len <= offset || offset + |data| <= o
    ensures Splice(s, offset, data)[o..o + len] == s[o..o + len]
  {
    var r := Splice(s, offset, data);
    assert forall j :: o <= j < o + len ==> r[j] == s[j];
  }
}
