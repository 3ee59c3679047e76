/** `Texture3DAtlas.GetAtlas` (Texture3DAtlas.cs): packs 3D textures into one 2048-cube
    atlas by guillotine cuts. Textures are taken largest longest-edge first; each takes the
    free chunk with the longest shortest edge, is put at the chunk's corner, and the rest
    of the chunk is cut into up to three free chunks. Volume sizes are in the
    `(width, depth, height)` order in which `CreateRWVolumeRT` takes them. */
module TextureAtlas {
  import opened Wrappers
  import opened IntMath
  import opened Vectors
  import PQ = PriorityQueue
  import RU = RenderUtilities
  import TU = TextureUtil

  /** Texture edges must be multiples of this, the blit kernel's group size. */
  const TextureSizeAlignment: nat := 8

  const MaxTextureSize: nat := 2048

  datatype Texture = Texture(width: nat, height: nat, depth: nat, format: RU.GraphicsFormat)

  /** What the caller promises of each texture: positive edges that are multiples of
      `TextureSizeAlignment`. */
  predicate Aligned(t: Texture)
  {
    && t.width > 0 && t.height > 0 && t.depth > 0
    && t.width % TextureSizeAlignment == 0
    && t.height % TextureSizeAlignment == 0
    && t.depth % TextureSizeAlignment == 0
  }

  /** `GetMaxEdge`. */
  function MaxEdge(t: Texture): (r: int)
    ensures r >= t.width && r >= t.height && r >= t.depth
    ensures r == t.width || r == t.height || r == t.depth
  {
    Max(Max(t.width, t.height), t.depth)
  }

  /** `GetMinDimension`. */
  function MinDimension(v: Int3): (r: int)
    ensures r <= v.x && r <= v.y && r <= v.z
    ensures r == v.x || r == v.y || r == v.z
  {
    Min(Min(v.x, v.y), v.z)
  }

  /** The extent a texture takes in the atlas. */
  function PackedSize(t: Texture): Int3
  {
    Int3(t.width, t.depth, t.height)
  }

  /** An axis-aligned box of texels: a free chunk or a placed texture. */
  datatype Chunk = Chunk(offset: Int3, size: Int3)

  /** The whole atlas, the first free chunk. */
  const Root := Chunk(Zero3, Int3(MaxTextureSize, MaxTextureSize, MaxTextureSize))

  predicate Positive(v: Int3)
  {
    v.x > 0 && v.y > 0 && v.z > 0
  }

  predicate Contains(b: Chunk, p: Int3)
  {
    && b.offset.x <= p.x < b.offset.x + b.size.x
    && b.offset.y <= p.y < b.offset.y + b.size.y
    && b.offset.z <= p.z < b.offset.z + b.size.z
  }

  predicate InsideOn(inner: Chunk, outer: Chunk, a: Axis)
  {
    && outer.offset.Get(a) <= inner.offset.Get(a)
    && inner.offset.Get(a) + inner.size.Get(a) <= outer.offset.Get(a) + outer.size.Get(a)
  }

  predicate Inside(inner: Chunk, outer: Chunk)
  {
    InsideOn(inner, outer, 0) && InsideOn(inner, outer, 1) && InsideOn(inner, outer, 2)
  }

  /** The boxes do not overlap along axis `a`. */
  predicate SeparatedOn(b: Chunk, c: Chunk, a: Axis)
  {
    b.offset.Get(a) + b.size.Get(a) <= c.offset.Get(a) || c.offset.Get(a) + c.size.Get(a) <= b.offset.Get(a)
  }

  predicate Disjoint(b: Chunk, c: Chunk)
  {
    SeparatedOn(b, c, 0) || SeparatedOn(b, c, 1) || SeparatedOn(b, c, 2)
  }

  /** A non-empty box inside the atlas. */
  predicate Within(c: Chunk)
  {
    Positive(c.size) && Inside(c, Root)
  }

  /** Separation along an axis is exactly the absence of a shared texel, for non-empty
      boxes. */
  lemma DisjointIffNoCommonPoint(b: Chunk, c: Chunk)
    requires Positive(b.size) && Positive(c.size)
    ensures Disjoint(b, c) <==> forall p :: !(Contains(b, p) && Contains(c, p))
  {
    if !Disjoint(b, c) {
      var p := Int3(Max(b.offset.x, c.offset.x), Max(b.offset.y, c.offset.y), Max(b.offset.z, c.offset.z));
      assert Contains(b, p) && Contains(c, p);
    }
  }

  /** A box inside one of two disjoint boxes is disjoint from the other. */
  lemma InsideDisjoint(x: Chunk, c: Chunk, y: Chunk)
    requires Inside(x, c) && Disjoint(c, y)
    ensures Disjoint(x, y) && Disjoint(y, x)
  {
  }

  /** The local function `Ascend(vector, ref l, ref r)`: the two axes, ordered so that the
      first has the smaller component, keeping them when equal. */
  function Ascend(v: Int3, l: Axis, r: Axis): (Axis, Axis)
  {
    if v.Get(r) < v.Get(l) then (r, l) else (l, r)
  }

  /** The three `Ascend` calls: the axes `(min, mid, max)` of the free space, a
      permutation of the axes ordered by component. */
  function AxisOrder(free: Int3): (r: (Axis, Axis, Axis))
    ensures r.0 != r.1 && r.1 != r.2 && r.0 != r.2
    ensures free.Get(r.0) <= free.Get(r.1) <= free.Get(r.2)
  {
    var (min0, mid0) := Ascend(free, 0, 1);
    var (min1, max0) := Ascend(free, min0, 2);
    var (mid1, max1) := Ascend(free, mid0, max0);
    (min1, mid1, max1)
  }

  /** How many components of `v` are positive. */
  function PositiveAxes(v: Int3): nat
  {
    (if v.x > 0 then 1 else 0) + (if v.y > 0 then 1 else 0) + (if v.z > 0 then 1 else 0)
  }

  /** The axis the `k`-th cut chunk is cut along: the longest free axis first, then the
      middle one, then the shortest. */
  function CutAxis(free: Int3, k: nat): Axis
  {
    var (mn, md, mx) := AxisOrder(free);
    if k == 0 then mx else if k == 1 then md else mn
  }

  /** With the free extents sorted, the leading non-zero ones in max, mid, min order are
      exactly the positive ones. */
  lemma LeadingNonZeroArePositive(free: Int3)
    requires free.NonNegative()
    ensures var (mn, md, mx) := AxisOrder(free);
      PositiveAxes(free) == (if free.Get(mx) == 0 then 0 else if free.Get(md) == 0 then 1
                             else if free.Get(mn) == 0 then 2 else 3)
  {
    var (mn, md, mx) := AxisOrder(free);
    assert {mn, md, mx} == {0, 1, 2} by {
      assert mn in {0, 1, 2} && md in {0, 1, 2} && mx in {0, 1, 2};
    }
    assert free.Get(0) == free.x && free.Get(1) == free.y && free.Get(2) == free.z;
  }

  /** One loop step's outcome: the offset written into `offsets[index]`, if any, and the
      free chunks enqueued, in order. */
  datatype Split = Split(recorded: Option<Int3>, pieces: seq<Chunk>)

  /** The loop body as written: the cut chunks' offsets along the cut axis are set to the
      texture's size rather than the chunk's offset plus it, and the offset recorded is
      that of the last cut chunk, written only when all three free extents are positive. */
  function SplitAsWritten(c: Chunk, t: Int3): (r: Split)
    requires c.size.Sub(t).NonNegative()
    ensures |r.pieces| == PositiveAxes(c.size.Sub(t))
    ensures forall k :: 0 <= k < |r.pieces| ==>
      var axis := CutAxis(c.size.Sub(t), k);
      r.pieces[k].size.Get(axis) == c.size.Sub(t).Get(axis) && r.pieces[k].offset.Get(axis) == t.Get(axis)
    ensures r.recorded.Some? <==> Positive(c.size.Sub(t))
  {
    var free := c.size.Sub(t);
    LeadingNonZeroArePositive(free);
    var (mn, md, mx) := AxisOrder(free);
    if free.Get(mx) == 0 then Split(None, [])
    else
      var a := Chunk(c.offset.Set(mx, t.Get(mx)), c.size.Set(mx, free.Get(mx)));
      if free.Get(md) == 0 then Split(None, [a])
      else
        var b := Chunk(c.offset.Set(md, t.Get(md)), c.size.Set(mx, free.Get(mx)).Set(md, free.Get(md)).Set(mx, t.Get(mx)));
        if free.Get(mn) == 0 then Split(None, [a, b])
        else
          var last := Chunk(c.offset.Set(mn, t.Get(mn)), t.Set(mn, free.Get(mn)));
          Split(Some(last.offset), [a, b, last])
  }

  /** The chunk's offset moved past the texture along `axis`. */
  function Past(c: Chunk, t: Int3, axis: Axis): Int3
  {
    c.offset.Set(axis, c.offset.Get(axis) + t.Get(axis))
  }

  /** The loop body corrected: the texture goes to the chunk's corner, which is always
      recorded; the cut chunks lie past it along the longest, middle and shortest free
      axis. */
  function SplitChunk(c: Chunk, t: Int3): (r: Split)
    requires c.size.Sub(t).NonNegative()
    ensures r.recorded == Some(c.offset)
    ensures |r.pieces| == PositiveAxes(c.size.Sub(t))
    ensures |r.pieces| == 0 <==> c.size == t
  {
    var free := c.size.Sub(t);
    LeadingNonZeroArePositive(free);
    var (mn, md, mx) := AxisOrder(free);
    if free.Get(mx) == 0 then Split(Some(c.offset), [])
    else
      var a := Chunk(Past(c, t, mx), c.size.Set(mx, free.Get(mx)));
      if free.Get(md) == 0 then Split(Some(c.offset), [a])
      else
        var b := Chunk(Past(c, t, md), c.size.Set(md, free.Get(md)).Set(mx, t.Get(mx)));
        if free.Get(mn) == 0 then Split(Some(c.offset), [a, b])
        else
          var last := Chunk(Past(c, t, mn), t.Set(mn, free.Get(mn)));
          Split(Some(c.offset), [a, b, last])
  }

  /** The placed texture and the cut chunks are inside the chunk, and the cut chunks are
      non-empty. */
  lemma SplitChunkInside(c: Chunk, t: Int3)
    requires c.size.Sub(t).NonNegative() && Positive(t)
    ensures var s := SplitChunk(c, t);
      && Inside(Chunk(c.offset, t), c)
      && forall k :: 0 <= k < |s.pieces| ==> Positive(s.pieces[k].size) && Inside(s.pieces[k], c)
  {
    FirstPieceInside(c, t);
    SecondPieceInside(c, t);
    ThirdPieceInside(c, t);
  }

  /** The first cut chunk, past the texture along the longest free axis. */
  lemma FirstPieceInside(c: Chunk, t: Int3)
    requires c.size.Sub(t).NonNegative() && Positive(t)
    ensures var s := SplitChunk(c, t);
      |s.pieces| > 0 ==> Positive(s.pieces[0].size) && Inside(s.pieces[0], c)
  {
  }

  /** The second cut chunk, past the texture along the middle free axis. */
  lemma SecondPieceInside(c: Chunk, t: Int3)
    requires c.size.Sub(t).NonNegative() && Positive(t)
    ensures var s := SplitChunk(c, t);
      |s.pieces| > 1 ==> Positive(s.pieces[1].size) && Inside(s.pieces[1], c)
  {
  }

  /** The third cut chunk, past the texture along the shortest free axis. */
  lemma ThirdPieceInside(c: Chunk, t: Int3)
    requires c.size.Sub(t).NonNegative() && Positive(t)
    ensures var s := SplitChunk(c, t);
      |s.pieces| > 2 ==> Positive(s.pieces[2].size) && Inside(s.pieces[2], c)
  {
  }

  /** The cut chunks are clear of the placed texture and of each other. */
  lemma SplitChunkSeparated(c: Chunk, t: Int3)
    requires c.size.Sub(t).NonNegative() && Positive(t)
    ensures var s := SplitChunk(c, t);
      && (forall k :: 0 <= k < |s.pieces| ==> Disjoint(s.pieces[k], Chunk(c.offset, t)))
      && (forall k, l :: 0 <= k < l < |s.pieces| ==> Disjoint(s.pieces[k], s.pieces[l]))
  {
    var (mn, md, mx) := AxisOrder(c.size.Sub(t));
    // one case per order of the axes
    if mn == 0 && md == 1 {
    } else if mn == 0 && md == 2 {
    } else if mn == 1 && md == 0 {
    } else if mn == 1 && md == 2 {
    } else if mn == 2 && md == 0 {
    } else {
    }
  }

  /** The placed texture and the cut chunks are non-empty, inside the chunk, and pairwise
      disjoint. */
  lemma SplitChunkDisjoint(c: Chunk, t: Int3)
    requires c.size.Sub(t).NonNegative() && Positive(t)
    ensures var s := SplitChunk(c, t); var placed := Chunk(c.offset, t);
      && Inside(placed, c)
      && (forall k :: 0 <= k < |s.pieces| ==>
            Positive(s.pieces[k].size) && Inside(s.pieces[k], c) && Disjoint(s.pieces[k], placed))
      && (forall k, l :: 0 <= k < l < |s.pieces| ==> Disjoint(s.pieces[k], s.pieces[l]))
  {
    SplitChunkInside(c, t);
    SplitChunkSeparated(c, t);
  }

  /** A texel of the chunk past the texture along the longest free axis is in the first
      cut chunk. */
  lemma CoveredPastMax(c: Chunk, t: Int3, p: Int3)
    requires c.size.Sub(t).NonNegative() && Contains(c, p)
    requires var mx := AxisOrder(c.size.Sub(t)).2; p.Get(mx) >= c.offset.Get(mx) + t.Get(mx)
    ensures |SplitChunk(c, t).pieces| > 0 && Contains(SplitChunk(c, t).pieces[0], p)
  {
  }

  /** A texel of the chunk within the texture along the longest free axis but past it along
      the middle one is in the second cut chunk. */
  lemma CoveredPastMid(c: Chunk, t: Int3, p: Int3)
    requires c.size.Sub(t).NonNegative() && Contains(c, p)
    requires var (mn, md, mx) := AxisOrder(c.size.Sub(t));
      p.Get(mx) < c.offset.Get(mx) + t.Get(mx) && p.Get(md) >= c.offset.Get(md) + t.Get(md)
    ensures |SplitChunk(c, t).pieces| > 1 && Contains(SplitChunk(c, t).pieces[1], p)
  {
  }

  /** A texel of the chunk within the texture along the longest and middle free axes but
      outside it is in the third cut chunk. */
  lemma CoveredPastMin(c: Chunk, t: Int3, p: Int3)
    requires c.size.Sub(t).NonNegative() && Contains(c, p) && !Contains(Chunk(c.offset, t), p)
    requires var (mn, md, mx) := AxisOrder(c.size.Sub(t));
      p.Get(mx) < c.offset.Get(mx) + t.Get(mx) && p.Get(md) < c.offset.Get(md) + t.Get(md)
    ensures |SplitChunk(c, t).pieces| > 2 && Contains(SplitChunk(c, t).pieces[2], p)
  {
  }

  /** Every texel of the chunk is in the placed texture or in a cut chunk: no space is
      lost. */
  lemma SplitChunkCovers(c: Chunk, t: Int3, p: Int3)
    requires c.size.Sub(t).NonNegative() && Contains(c, p)
    ensures var s := SplitChunk(c, t);
      Contains(Chunk(c.offset, t), p) || exists k :: 0 <= k < |s.pieces| && Contains(s.pieces[k], p)
  {
    var (mn, md, mx) := AxisOrder(c.size.Sub(t));
    if !Contains(Chunk(c.offset, t), p) {
      if p.Get(mx) >= c.offset.Get(mx) + t.Get(mx) {
        CoveredPastMax(c, t, p);
      } else if p.Get(md) >= c.offset.Get(md) + t.Get(md) {
        CoveredPastMid(c, t, p);
      } else {
        CoveredPastMin(c, t, p);
      }
    }
  }

  /** The as-written step, on the first texture: an 8-texel cube in the whole atlas is
      recorded at (8, 0, 0), the corner of a free chunk it just enqueued, where the
      corrected step records the origin; a chunk cut from a chunk away from the origin
      reaches back outside it; and a texture filling its chunk records no offset. */
  lemma SplitAsWrittenMisplaces()
    ensures var t := Int3(8, 8, 8); var s := SplitAsWritten(Root, t);
      && s.recorded == Some(Int3(8, 0, 0))
      && s.pieces[2] == Chunk(Int3(8, 0, 0), Int3(2040, 8, 8))
      && !Disjoint(Chunk(s.recorded.value, t), s.pieces[2])
      && SplitChunk(Root, t).recorded == Some(Zero3)
    ensures var c := Chunk(Int3(0, 0, 16), Int3(2048, 2048, 2032));
      !Inside(SplitAsWritten(c, Int3(8, 8, 8)).pieces[2], c)
    ensures SplitAsWritten(Root, Root.size).recorded.None?
  {
    var t := Int3(8, 8, 8);
    assert AxisOrder(Root.size.Sub(t)) == (0, 1, 2);
    var c := Chunk(Int3(0, 0, 16), Int3(2048, 2048, 2032));
    assert AxisOrder(c.size.Sub(t)) == (2, 1, 0);
  }

  /** `order` lists each of the indices `0..n - 1` exactly once. */
  predicate IsPermutation(order: seq<nat>, n: nat)
  {
    && |order| == n
    && (forall k :: 0 <= k < |order| ==> order[k] < n)
    && (forall k, l :: 0 <= k < l < |order| ==> order[k] != order[l])
    && (forall j :: 0 <= j < n ==> j in order)
  }

  /** The textures listed by `order` have ascending longest edges. */
  predicate SortedByMaxEdge(textures: seq<Texture>, order: seq<nat>)
    requires forall k :: 0 <= k < |order| ==> order[k] < |textures|
  {
    forall k, l :: 0 <= k < l < |order| ==> MaxEdge(textures[order[k]]) <= MaxEdge(textures[order[l]])
  }

  function InsertAt(s: seq<nat>, p: nat, x: nat): (r: seq<nat>)
    requires p <= |s|
    ensures |r| == |s| + 1 && r[p] == x
    ensures forall k :: 0 <= k < p ==> r[k] == s[k]
    ensures forall k :: p < k < |r| ==> r[k] == s[k - 1]
  {
    s[..p] + [x] + s[p..]
  }

  /** Inserting the next index anywhere extends a permutation. */
  lemma InsertExtendsPermutation(order: seq<nat>, p: nat, i: nat)
    requires IsPermutation(order, i) && p <= i
    ensures IsPermutation(InsertAt(order, p, i), i + 1)
  {
    var r := InsertAt(order, p, i);
    forall j | 0 <= j < i + 1
      ensures j in r
    {
      if j < i {
        assert j in order;
        var k :| 0 <= k < i && order[k] == j;
        assert r[if k < p then k else k + 1] == j;
      } else {
        assert r[p] == j;
      }
    }
  }

  /** Inserting a texture after the entries with longest edge at most its own and before
      a longer one keeps the order sorted. */
  lemma InsertKeepsSorted(textures: seq<Texture>, order: seq<nat>, p: nat, i: nat)
    requires p <= |order| && i < |textures|
    requires forall k :: 0 <= k < |order| ==> order[k] < |textures|
    requires SortedByMaxEdge(textures, order)
    requires forall k :: 0 <= k < p ==> MaxEdge(textures[order[k]]) <= MaxEdge(textures[i])
    requires p < |order| ==> MaxEdge(textures[i]) < MaxEdge(textures[order[p]])
    ensures forall k :: 0 <= k < |InsertAt(order, p, i)| ==> InsertAt(order, p, i)[k] < |textures|
    ensures SortedByMaxEdge(textures, InsertAt(order, p, i))
  {
    var r := InsertAt(order, p, i);
    forall k, l | 0 <= k < l < |r|
      ensures MaxEdge(textures[r[k]]) <= MaxEdge(textures[r[l]])
    {
      if l == p {
      } else if k == p {
        assert MaxEdge(textures[order[p]]) <= MaxEdge(textures[order[l - 1]]);
      } else if l < p {
      } else if k < p {
        assert MaxEdge(textures[order[k]]) <= MaxEdge(textures[order[l - 1]]);
      } else {
        assert MaxEdge(textures[order[k - 1]]) <= MaxEdge(textures[order[l - 1]]);
      }
    }
  }

  /** `sortedTextures`: the texture indices ordered by longest edge, ascending; among equal
      edges this insertion sort keeps index order, one of the orders `List.Sort` may give. */
  method SortByMaxEdge(textures: seq<Texture>) returns (order: seq<nat>)
    ensures IsPermutation(order, |textures|)
    ensures SortedByMaxEdge(textures, order)
  {
    order := [];
    for i := 0 to |textures|
      invariant IsPermutation(order, i)
      invariant SortedByMaxEdge(textures, order)
    {
      var key := MaxEdge(textures[i]);
      var p := 0;
      while p < |order| && MaxEdge(textures[order[p]]) <= key
        invariant 0 <= p <= |order|
        invariant forall k :: 0 <= k < p ==> MaxEdge(textures[order[k]]) <= key
      {
        p := p + 1;
      }
      InsertExtendsPermutation(order, p, i);
      InsertKeepsSorted(textures, order, p, i);
      order := InsertAt(order, p, i);
    }
  }

  /** A chunk as `EnqueueChunk` files it: keyed by its shortest edge. */
  function ChunkEntry(c: Chunk): PQ.Entry<Chunk>
  {
    PQ.Entry(MinDimension(c.size), c)
  }

  function Entries(cs: seq<Chunk>): (r: seq<PQ.Entry<Chunk>>)
    ensures |r| == |cs| && forall k :: 0 <= k < |cs| ==> r[k] == ChunkEntry(cs[k])
  {
    seq(|cs|, k requires 0 <= k < |cs| => ChunkEntry(cs[k]))
  }

  /** The free chunks `m` and the placed textures: each well keyed and non-empty inside the
      atlas, no chunk queued twice, and all of them pairwise disjoint. */
  ghost predicate Layout(m: multiset<PQ.Entry<Chunk>>, placed: seq<Chunk>)
  {
    && (forall e :: e in m ==> e.key == MinDimension(e.value.size) && Within(e.value))
    && (forall e :: m[e] <= 1)
    && (forall e, f :: e in m && f in m && e != f ==> Disjoint(e.value, f.value))
    && (forall e, k :: e in m && 0 <= k < |placed| ==> Disjoint(e.value, placed[k]))
    && (forall k :: 0 <= k < |placed| ==> Within(placed[k]))
    && (forall k, l :: 0 <= k < l < |placed| ==> Disjoint(placed[k], placed[l]))
  }

  /** Two non-empty disjoint boxes differ. */
  lemma DisjointDiffer(b: Chunk, c: Chunk)
    requires Positive(b.size) && Disjoint(b, c)
    ensures b != c
  {
  }

  /** Taking a free chunk out and placing a texture at its corner keeps the layout, and the
      taken chunk stays clear of everything left. */
  lemma TakeChunk(rest: multiset<PQ.Entry<Chunk>>, top: PQ.Entry<Chunk>, placed: seq<Chunk>, t: Int3)
    requires Layout(rest + multiset{top}, placed)
    requires top.value.size.Sub(t).NonNegative() && Positive(t)
    ensures Layout(rest, placed + [Chunk(top.value.offset, t)])
    ensures Within(top.value)
    ensures forall f :: f in rest ==> Disjoint(top.value, f.value)
    ensures forall k :: 0 <= k < |placed| ==> Disjoint(top.value, placed[k])
  {
    var m := rest + multiset{top};
    var box := Chunk(top.value.offset, t);
    assert top in m;
    SplitChunkDisjoint(top.value, t);
    TakenApart(rest, top, placed);
    BoxClearOfQueue(rest, top, placed, box);
    BoxClearOfPlaced(rest, top, placed, box);
    assert forall e :: e in rest ==> e in m && rest[e] <= m[e];
  }

  /** The taken chunk is clear of the chunks left in the queue and of the placed
      textures. */
  lemma TakenApart(rest: multiset<PQ.Entry<Chunk>>, top: PQ.Entry<Chunk>, placed: seq<Chunk>)
    requires Layout(rest + multiset{top}, placed)
    ensures Within(top.value)
    ensures forall f :: f in rest ==> Disjoint(top.value, f.value)
    ensures forall k :: 0 <= k < |placed| ==> Disjoint(top.value, placed[k])
  {
    var m := rest + multiset{top};
    assert top in m;
    assert rest[top] == 0 by {
      assert m[top] == rest[top] + 1;
    }
    forall f | f in rest
      ensures Disjoint(top.value, f.value)
    {
      assert f in m && f != top;
    }
  }

  /** A box inside the taken chunk is clear of every chunk left in the queue. */
  lemma BoxClearOfQueue(rest: multiset<PQ.Entry<Chunk>>, top: PQ.Entry<Chunk>, placed: seq<Chunk>, box: Chunk)
    requires Layout(rest + multiset{top}, placed)
    requires forall f :: f in rest ==> Disjoint(top.value, f.value)
    requires Inside(box, top.value)
    ensures forall e, k :: e in rest && 0 <= k < |placed + [box]| ==> Disjoint(e.value, (placed + [box])[k])
  {
    var m := rest + multiset{top};
    var placed' := placed + [box];
    forall e, k | e in rest && 0 <= k < |placed'|
      ensures Disjoint(e.value, placed'[k])
    {
      assert e in m;
      if k == |placed| {
        InsideDisjoint(box, top.value, e.value);
      } else {
        assert placed'[k] == placed[k];
      }
    }
  }

  /** A box inside the taken chunk is clear of every placed texture, and inside the root. */
  lemma BoxClearOfPlaced(rest: multiset<PQ.Entry<Chunk>>, top: PQ.Entry<Chunk>, placed: seq<Chunk>, box: Chunk)
    requires Layout(rest + multiset{top}, placed)
    requires forall k :: 0 <= k < |placed| ==> Disjoint(top.value, placed[k])
    requires Within(top.value) && Inside(box, top.value) && Positive(box.size)
    ensures forall k :: 0 <= k < |placed + [box]| ==> Within((placed + [box])[k])
    ensures forall k, l :: 0 <= k < l < |placed + [box]| ==> Disjoint((placed + [box])[k], (placed + [box])[l])
  {
    var placed' := placed + [box];
    forall k, l | 0 <= k < l < |placed'|
      ensures Disjoint(placed'[k], placed'[l])
    {
      if l == |placed| {
        InsideDisjoint(box, top.value, placed[k]);
      } else {
        assert placed'[k] == placed[k] && placed'[l] == placed[l];
      }
    }
  }

  /** Filing a non-empty, well-keyed chunk clear of every queued chunk and placed texture
      keeps the layout. */
  lemma AddFree(m: multiset<PQ.Entry<Chunk>>, placed: seq<Chunk>, e: PQ.Entry<Chunk>)
    requires Layout(m, placed)
    requires e.key == MinDimension(e.value.size) && Within(e.value)
    requires forall f :: f in m ==> Disjoint(e.value, f.value)
    requires forall k :: 0 <= k < |placed| ==> Disjoint(e.value, placed[k])
    ensures Layout(m + multiset{e}, placed)
  {
    if e in m {
      DisjointDiffer(e.value, e.value);
    }
    forall f, g | f in m + multiset{e} && g in m + multiset{e} && f != g
      ensures Disjoint(f.value, g.value)
    {
      if f == e {
        assert g in m;
      } else if g == e {
        assert f in m;
        assert Disjoint(e.value, f.value);
      }
    }
  }

  /** The next cut chunk is clear of every chunk still queued and of the chunks cut before
      it. */
  lemma PieceClearOfQueue(rest: multiset<PQ.Entry<Chunk>>, c: Chunk, t: Int3, p: nat)
    requires c.size.Sub(t).NonNegative() && Positive(t)
    requires p < |SplitChunk(c, t).pieces|
    requires forall f :: f in rest ==> Disjoint(c, f.value)
    ensures forall f :: f in rest + multiset(Entries(SplitChunk(c, t).pieces[..p])) ==>
      Disjoint(SplitChunk(c, t).pieces[p], f.value)
  {
    var pieces := SplitChunk(c, t).pieces;
    SplitChunkDisjoint(c, t);
    forall f | f in rest + multiset(Entries(pieces[..p]))
      ensures Disjoint(pieces[p], f.value)
    {
      if f in rest {
        InsideDisjoint(pieces[p], c, f.value);
      } else {
        var k := EntryIndex(pieces, p, f);
        assert Disjoint(pieces[k], pieces[p]);
      }
    }
  }

  /** An entry filed for one of the first `p` chunks is the entry of one of them. */
  lemma EntryIndex(cs: seq<Chunk>, p: nat, f: PQ.Entry<Chunk>) returns (k: nat)
    requires p <= |cs| && f in multiset(Entries(cs[..p]))
    ensures k < p && f.value == cs[k]
  {
    var es := Entries(cs[..p]);
    assert f in es;
    var i :| 0 <= i < |es| && es[i] == f;
    k := i;
  }

  /** The next cut chunk is clear of every placed texture, the one just placed included. */
  lemma PieceClearOfPlaced(c: Chunk, placed: seq<Chunk>, t: Int3, p: nat)
    requires c.size.Sub(t).NonNegative() && Positive(t)
    requires p < |SplitChunk(c, t).pieces|
    requires forall k :: 0 <= k < |placed| ==> Disjoint(c, placed[k])
    ensures forall k :: 0 <= k < |placed| + 1 ==>
      Disjoint(SplitChunk(c, t).pieces[p], (placed + [Chunk(c.offset, t)])[k])
  {
    var pieces := SplitChunk(c, t).pieces;
    SplitChunkDisjoint(c, t);
    forall k | 0 <= k < |placed|
      ensures Disjoint(pieces[p], placed[k])
    {
      InsideDisjoint(pieces[p], c, placed[k]);
    }
  }

  /** Filing one more chunk adds its entry to the queue's contents. */
  lemma EntriesSnoc(rest: multiset<PQ.Entry<Chunk>>, cs: seq<Chunk>, p: nat)
    requires p < |cs|
    ensures rest + multiset(Entries(cs[..p + 1])) == rest + multiset(Entries(cs[..p])) + multiset{ChunkEntry(cs[p])}
  {
    assert Entries(cs[..p + 1]) == Entries(cs[..p]) + [ChunkEntry(cs[p])];
  }

  /** A non-empty box inside a box of the atlas is a box of the atlas. */
  lemma InsideWithin(x: Chunk, c: Chunk)
    requires Positive(x.size) && Inside(x, c) && Within(c)
    ensures Within(x)
  {
  }

  /** Filing the next cut chunk keeps the layout: it lies inside the taken chunk, clear of
      the texture placed there and of the chunks cut before it. */
  lemma AddPiece(rest: multiset<PQ.Entry<Chunk>>, top: PQ.Entry<Chunk>, placed: seq<Chunk>, t: Int3, p: nat)
    requires top.value.size.Sub(t).NonNegative() && Positive(t)
    requires p < |SplitChunk(top.value, t).pieces|
    requires Within(top.value)
    requires forall f :: f in rest ==> Disjoint(top.value, f.value)
    requires forall k :: 0 <= k < |placed| ==> Disjoint(top.value, placed[k])
    requires Layout(rest + multiset(Entries(SplitChunk(top.value, t).pieces[..p])), placed + [Chunk(top.value.offset, t)])
    ensures Layout(rest + multiset(Entries(SplitChunk(top.value, t).pieces[..p + 1])), placed + [Chunk(top.value.offset, t)])
  {
    var c := top.value;
    var pieces := SplitChunk(c, t).pieces;
    SplitChunkDisjoint(c, t);
    PieceClearOfQueue(rest, c, t, p);
    PieceClearOfPlaced(c, placed, t, p);
    var m := rest + multiset(Entries(pieces[..p]));
    var e := ChunkEntry(pieces[p]);
    InsideWithin(pieces[p], c);
    EntriesSnoc(rest, pieces, p);
    AddFree(m, placed + [Chunk(c.offset, t)], e);
  }

  /** The free-chunk queue failed to give the texture room: it was empty, or its chunk with
      the longest shortest edge is smaller than the texture on some axis. */
  datatype PlaceError = QueueEmpty | ChunkTooSmall

  /** Taking the free chunk `top`, placing the texture at its corner and filing the first
      `p` chunks cut from it keeps the layout. */
  lemma {:induction false} LayoutAfterPieces(rest: multiset<PQ.Entry<Chunk>>, top: PQ.Entry<Chunk>, placed: seq<Chunk>, t: Int3, p: nat)
    requires Layout(rest + multiset{top}, placed)
    requires top.value.size.Sub(t).NonNegative() && Positive(t)
    requires p <= |SplitChunk(top.value, t).pieces|
    ensures Layout(rest + multiset(Entries(SplitChunk(top.value, t).pieces[..p])), placed + [Chunk(top.value.offset, t)])
  {
    TakeChunk(rest, top, placed, t);
    if p == 0 {
      assert Entries(SplitChunk(top.value, t).pieces[..0]) == [];
      assert rest + multiset(Entries(SplitChunk(top.value, t).pieces[..0])) == rest;
    } else {
      LayoutAfterPieces(rest, top, placed, t, p - 1);
      AddPiece(rest, top, placed, t, p - 1);
    }
  }

  /** The inner part of the loop body: the chunks cut from the taken chunk are filed. */
  method FilePieces(rest: seq<PQ.Entry<Chunk>>, pieces: seq<Chunk>) returns (queue: seq<PQ.Entry<Chunk>>)
    requires PQ.Heap(rest)
    ensures PQ.Heap(queue)
    ensures multiset(queue) == multiset(rest) + multiset(Entries(pieces))
  {
    queue := rest;
    assert Entries(pieces[..0]) == [];
    for p := 0 to |pieces|
      invariant PQ.Heap(queue)
      invariant multiset(queue) == multiset(rest) + multiset(Entries(pieces[..p]))
    {
      var e := ChunkEntry(pieces[p]);
      assert Entries(pieces[..p + 1]) == Entries(pieces[..p]) + [e];
      queue := PQ.Enqueue(queue, e);
    }
    assert pieces[..|pieces|] == pieces;
  }

  /** The corrected loop body for one texture of extent `t`: the chunk with the longest
      shortest edge is taken, the texture is placed at its corner and the cut chunks are
      filed. The layout is kept with the new box added. */
  method Place(q: seq<PQ.Entry<Chunk>>, ghost placed: seq<Chunk>, t: Int3) returns (r: Result<(Int3, seq<PQ.Entry<Chunk>>), PlaceError>)
    requires PQ.Heap(q) && Layout(multiset(q), placed) && Positive(t)
    ensures r == Err(QueueEmpty) <==> |q| == 0
    ensures |q| > 0 ==> (r.Ok? <==> q[0].value.size.Sub(t).NonNegative())
    ensures r.Ok? ==> r.value.0 == q[0].value.offset
    ensures r.Ok? ==> PQ.Heap(r.value.1) && Layout(multiset(r.value.1), placed + [Chunk(r.value.0, t)])
  {
    var dq := PQ.Dequeue(q);
    if dq.Err? {
      return Err(QueueEmpty);
    }
    var top := dq.value.0;
    var rest := dq.value.1;
    if !top.value.size.Sub(t).NonNegative() {
      return Err(ChunkTooSmall);
    }
    assert multiset(q) == multiset(rest) + multiset{top};
    var pieces := SplitChunk(top.value, t).pieces;
    LayoutAfterPieces(multiset(rest), top, placed, t, |pieces|);
    assert pieces[..|pieces|] == pieces;
    var queue := FilePieces(rest, pieces);
    return Ok((top.value.offset, queue));
  }

  /** One blit: the source texture, the offset it is copied to, and the dispatch size. */
  datatype Blit = Blit(source: nat, offset: Int3, groups: Int3)

  datatype Atlas = Atlas(volume: RU.VolumeRT, offsets: seq<Int3>, blits: seq<Blit>)

  /** `Dequeue` on the empty chunk queue throws; the `Debug.Assert` on a chunk too small
      for its texture is taken as fatal. Both name the texture. */
  datatype AtlasError = NoFreeChunk(index: nat) | DoesNotFit(index: nat)

  /** The box texture `i` occupies in the atlas. */
  function PlacedBox(textures: seq<Texture>, offsets: seq<Int3>, i: nat): Chunk
    requires i < |textures| && i < |offsets|
  {
    Chunk(offsets[i], PackedSize(textures[i]))
  }

  /** Every texture's box is non-empty and inside the atlas, and no two overlap. */
  predicate Packed(textures: seq<Texture>, offsets: seq<Int3>)
    requires |textures| <= |offsets|
  {
    && (forall i :: 0 <= i < |textures| ==> Within(PlacedBox(textures, offsets, i)))
    && (forall i, j :: 0 <= i < j < |textures| ==>
          Disjoint(PlacedBox(textures, offsets, i), PlacedBox(textures, offsets, j)))
  }

  /** What a packed atlas guarantees: every texture has a non-empty box inside the
      2048-cube atlas volume, the boxes are pairwise disjoint, offsets past the textures
      are kept, and each texture is blitted to its offset with one 8-cube group per
      aligned block. */
  predicate AtlasValid(textures: seq<Texture>, offsets0: seq<Int3>, a: Atlas)
    requires |textures| <= |offsets0| && |textures| > 0
  {
    && |a.offsets| == |offsets0|
    && a.offsets[|textures|..] == offsets0[|textures|..]
    && Packed(textures, a.offsets)
    && RU.GetVolumeRTSize(a.volume) == Root.size
    && a.volume.format == textures[0].format && a.volume.enableRandomWrite && a.volume.created
    && |a.blits| == |textures|
    && (forall i :: 0 <= i < |textures| ==>
          && a.blits[i].source == i && a.blits[i].offset == a.offsets[i]
          && a.blits[i].groups.x * TU.BlitMipGroupSizeX == textures[i].width
          && a.blits[i].groups.y * TU.BlitMipGroupSizeY == textures[i].height
          && a.blits[i].groups.z * TU.BlitMipGroupSizeZ == textures[i].depth)
  }

  /** The dispatch size of one blit. */
  function BlitGroups(t: Texture): (g: Int3)
    requires Aligned(t)
    ensures g.x * TU.BlitMipGroupSizeX == t.width
    ensures g.y * TU.BlitMipGroupSizeY == t.height
    ensures g.z * TU.BlitMipGroupSizeZ == t.depth
  {
    Int3(t.width / TU.BlitMipGroupSizeX, t.height / TU.BlitMipGroupSizeY, t.depth / TU.BlitMipGroupSizeZ)
  }

  /** `Vector3Int.Max`. */
  function Max3(a: Int3, b: Int3): Int3
  {
    Int3(Max(a.x, b.x), Max(a.y, b.y), Max(a.z, b.z))
  }

  /** The loop after `GetAtlas`'s packing loop: the pack size starts at the whole atlas and
      grows to cover every free chunk's offset, which never moves it, since every free
      chunk lies inside the atlas. */
  method PackSize(q: seq<PQ.Entry<Chunk>>) returns (packSize: Int3)
    requires forall e :: e in multiset(q) ==> Within(e.value)
    ensures packSize == Root.size
  {
    packSize := Root.size;
    for k := 0 to |q|
      invariant packSize == Root.size
    {
      assert q[k] in multiset(q);
      packSize := Max3(packSize, q[k].value.offset);
    }
  }

  /** The boxes placed in processing order, read back per texture through the sort
      permutation, are non-empty, inside the atlas and pairwise disjoint. */
  lemma PlacementValid(textures: seq<Texture>, offsets: seq<Int3>, order: seq<nat>, placed: seq<Chunk>)
    requires |textures| <= |offsets|
    requires IsPermutation(order, |textures|) && |placed| == |textures|
    requires forall k :: 0 <= k < |placed| ==> placed[|textures| - 1 - k] == PlacedBox(textures, offsets, order[k])
    requires forall k :: 0 <= k < |placed| ==> Within(placed[k])
    requires forall k, l :: 0 <= k < l < |placed| ==> Disjoint(placed[k], placed[l])
    ensures Packed(textures, offsets)
  {
    var n := |textures|;
    forall j | 0 <= j < n
      ensures Within(PlacedBox(textures, offsets, j))
    {
      assert j in order;
      var k :| 0 <= k < n && order[k] == j;
      assert placed[n - 1 - k] == PlacedBox(textures, offsets, j);
    }
    forall j1, j2 | 0 <= j1 < j2 < n
      ensures Disjoint(PlacedBox(textures, offsets, j1), PlacedBox(textures, offsets, j2))
    {
      assert j1 in order && j2 in order;
      var k1 :| 0 <= k1 < n && order[k1] == j1;
      var k2 :| 0 <= k2 < n && order[k2] == j2;
      assert placed[n - 1 - k1] == PlacedBox(textures, offsets, j1);
      assert placed[n - 1 - k2] == PlacedBox(textures, offsets, j2);
      if k1 < k2 {
        assert Disjoint(placed[n - 1 - k2], placed[n - 1 - k1]);
      } else {
        assert Disjoint(placed[n - 1 - k1], placed[n - 1 - k2]);
      }
    }
  }

  /** What holds after the textures `order[i..]` are packed: the queue is a heap of free
      chunks, clear of the boxes placed so far (the box of `order[k]` is `placed[n - 1 - k]`),
      and only offsets of packed textures have been written. */
  ghost predicate Packing(textures: seq<Texture>, offsets0: seq<Int3>, order: seq<nat>, i: nat,
                          q: seq<PQ.Entry<Chunk>>, offsets: seq<Int3>, placed: seq<Chunk>)
    requires |textures| <= |offsets0| && IsPermutation(order, |textures|)
  {
    && i <= |textures| && |placed| == |textures| - i
    && PQ.Heap(q)
    && Layout(multiset(q), placed)
    && |offsets| == |offsets0| && offsets[|textures|..] == offsets0[|textures|..]
    && forall k :: i <= k < |textures| ==>
         placed[|textures| - 1 - k] == PlacedBox(textures, offsets, order[k])
  }

  /** One iteration of `GetAtlas`'s packing loop: texture `order[i - 1]` is placed by
      `Place` and its offset written. On the first iteration the queue holds only the
      whole atlas, so a texture that fits it goes to the origin. */
  method PackStep(textures: seq<Texture>, offsets0: seq<Int3>, order: seq<nat>, i: nat,
                  q: seq<PQ.Entry<Chunk>>, offsets: seq<Int3>, ghost placed: seq<Chunk>)
    returns (r: Result<(seq<PQ.Entry<Chunk>>, seq<Int3>), AtlasError>)
    requires |textures| <= |offsets0| && IsPermutation(order, |textures|)
    requires forall j :: 0 <= j < |textures| ==> Aligned(textures[j])
    requires 0 < i && Packing(textures, offsets0, order, i, q, offsets, placed)
    ensures r.Ok? ==> |r.value.1| == |offsets0|
    ensures r.Ok? ==> Packing(textures, offsets0, order, i - 1, r.value.0, r.value.1,
                              placed + [PlacedBox(textures, r.value.1, order[i - 1])])
    ensures r.Ok? ==> forall j :: 0 <= j < |offsets| && j != order[i - 1] ==> r.value.1[j] == offsets[j]
    ensures q == [ChunkEntry(Root)] && Inside(Chunk(Zero3, PackedSize(textures[order[i - 1]])), Root) ==>
      r.Ok? && r.value.1[order[i - 1]] == Zero3
  {
    var n := |textures|;
    var index := order[i - 1];
    var t := PackedSize(textures[index]);
    var step := Place(q, placed, t);
    if step.Err? {
      return Err(if step.error == QueueEmpty then NoFreeChunk(index) else DoesNotFit(index));
    }
    var offsets' := offsets[index := step.value.0];
    ghost var placed' := placed + [PlacedBox(textures, offsets', index)];
    forall k | i - 1 <= k < n
      ensures placed'[n - 1 - k] == PlacedBox(textures, offsets', order[k])
    {
      if k >= i {
        assert order[k] != index;
      }
    }
    return Ok((step.value.1, offsets'));
  }

  /** `GetAtlas`'s packing loop with the corrected step: the textures are taken in
      reverse `order`. A texture meeting an empty queue or a too-small chunk stops
      packing. A single texture that fits goes to the origin. */
  method PackLoop(textures: seq<Texture>, offsets0: seq<Int3>, order: seq<nat>)
    returns (r: Result<(seq<Int3>, seq<PQ.Entry<Chunk>>), AtlasError>)
    requires |textures| <= |offsets0|
    requires forall i :: 0 <= i < |textures| ==> Aligned(textures[i])
    requires IsPermutation(order, |textures|)
    ensures r.Ok? ==> |r.value.0| == |offsets0| && r.value.0[|textures|..] == offsets0[|textures|..]
    ensures r.Ok? ==> Packed(textures, r.value.0)
    ensures r.Ok? ==> forall e :: e in multiset(r.value.1) ==> Within(e.value)
    ensures |textures| == 1 && Inside(Chunk(Zero3, PackedSize(textures[0])), Root) ==>
      r.Ok? && r.value.0[0] == Zero3
  {
    var n := |textures|;
    var q := PQ.Enqueue([], ChunkEntry(Root));
    assert q[0] in multiset(q);
    PackingStarts(textures, offsets0, order, q);
    var offsets := offsets0;
    ghost var placed: seq<Chunk> := [];
    var i: nat := n;
    while i > 0
      invariant Packing(textures, offsets0, order, i, q, offsets, placed)
      invariant i == n ==> q == [ChunkEntry(Root)]
      invariant n == 1 && i == 0 ==> offsets[0] == Zero3
    {
      var step := PackStep(textures, offsets0, order, i, q, offsets, placed);
      if step.Err? {
        return Err(step.error);
      }
      placed := placed + [PlacedBox(textures, step.value.1, order[i - 1])];
      q, offsets := step.value.0, step.value.1;
      i := i - 1;
    }
    PackingEnds(textures, offsets0, order, q, offsets, placed);
    return Ok((offsets, q));
  }

  /** Before the first iteration: only the whole atlas is queued and nothing is placed. */
  lemma PackingStarts(textures: seq<Texture>, offsets0: seq<Int3>, order: seq<nat>, q: seq<PQ.Entry<Chunk>>)
    requires |textures| <= |offsets0| && IsPermutation(order, |textures|)
    requires PQ.Heap(q) && q == [ChunkEntry(Root)]
    ensures Packing(textures, offsets0, order, |textures|, q, offsets0, [])
  {
    assert q[0] in multiset(q);
  }

  /** After the last iteration every texture has a box, and the boxes are valid. */
  lemma PackingEnds(textures: seq<Texture>, offsets0: seq<Int3>, order: seq<nat>,
                    q: seq<PQ.Entry<Chunk>>, offsets: seq<Int3>, placed: seq<Chunk>)
    requires |textures| <= |offsets0| && IsPermutation(order, |textures|)
    requires Packing(textures, offsets0, order, 0, q, offsets, placed)
    ensures |offsets| == |offsets0| && offsets[|textures|..] == offsets0[|textures|..]
    ensures Packed(textures, offsets)
    ensures forall e :: e in multiset(q) ==> Within(e.value)
  {
    PlacementValid(textures, offsets, order, placed);
  }

  /** `GetAtlas(cmd, textures, offsets)` with the corrected loop step. No textures give
      null. A packed atlas is valid; a texture longer than the atlas on any axis makes
      packing fail; a single texture that fits is put at the origin. */
  method GetAtlas(textures: seq<Texture>, offsets0: seq<Int3>) returns (r: Result<Option<Atlas>, AtlasError>)
    requires |textures| <= |offsets0|
    requires forall i :: 0 <= i < |textures| ==> Aligned(textures[i])
    ensures |textures| == 0 <==> r == Ok(None)
    ensures r.Ok? && r.value.Some? ==> AtlasValid(textures, offsets0, r.value.value)
    ensures (exists i :: 0 <= i < |textures| && !Inside(Chunk(Zero3, PackedSize(textures[i])), Root)) ==> r.Err?
    ensures |textures| == 1 && Inside(Chunk(Zero3, PackedSize(textures[0])), Root) ==>
      r.Ok? && r.value.Some? && r.value.value.offsets[0] == Zero3
  {
    if |textures| == 0 {
      return Ok(None);
    }
    var n := |textures|;
    var order := SortByMaxEdge(textures);
    var packed := PackLoop(textures, offsets0, order);
    if packed.Err? {
      return Err(packed.error);
    }
    var offsets := packed.value.0;
    var packSize := PackSize(packed.value.1);
    var volume := RU.CreateRWVolumeRT(textures[0].format, packSize);
    var blits := seq(n, j requires 0 <= j < n => Blit(j, offsets[j], BlitGroups(textures[j])));
    forall i | 0 <= i < n
      ensures Inside(Chunk(Zero3, PackedSize(textures[i])), Root)
    {
      assert Within(PlacedBox(textures, offsets, i));
    }
    r := Ok(Some(Atlas(volume, offsets, blits)));
  }
}
