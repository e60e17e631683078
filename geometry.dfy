/** Axis-aligned integer block boxes: the part of `Bounds` that the union
    geometry relies on (union, disjointness, block volume, block enumeration). */
module Geometry {

  datatype Block = Block(x: int, y: int, z: int)

  /** `EmptyBounds` is `Bounds.empty()`; `Box(lo, hi)` holds the blocks whose
      coordinates lie between `lo` and `hi`, both inclusive. */
  datatype Bounds = EmptyBounds | Box(lo: Block, hi: Block)

  predicate Valid(b: Bounds) {
    b.Box? ==> b.lo.x <= b.hi.x && b.lo.y <= b.hi.y && b.lo.z <= b.hi.z
  }

  predicate InBox(p: Block, b: Bounds) {
    b.Box? && b.lo.x <= p.x <= b.hi.x && b.lo.y <= p.y <= b.hi.y && b.lo.z <= p.z <= b.hi.z
  }

  /** Box `a` lies inside box `c`. */
  predicate Within(a: Bounds, c: Bounds) {
    a.EmptyBounds? ||
    (c.Box? && c.lo.x <= a.lo.x && c.lo.y <= a.lo.y && c.lo.z <= a.lo.z &&
               a.hi.x <= c.hi.x && a.hi.y <= c.hi.y && a.hi.z <= c.hi.z)
  }

  lemma WithinInBox(p: Block, a: Bounds, c: Bounds)
    requires Within(a, c) && InBox(p, a)
    ensures InBox(p, c)
  {
  }

  function Min(a: int, b: int): int { if a <= b then a else b }
  function Max(a: int, b: int): int { if a <= b then b else a }

  /** `Bounds.union`: the smallest box holding both arguments. */
  function Union(a: Bounds, b: Bounds): (r: Bounds)
    ensures Within(a, r) && Within(b, r)
    ensures forall c :: Within(a, c) && Within(b, c) ==> Within(r, c)
    ensures Valid(a) && Valid(b) ==> Valid(r)
  {
    if a.EmptyBounds? then b
    else if b.EmptyBounds? then a
    else Box(Block(Min(a.lo.x, b.lo.x), Min(a.lo.y, b.lo.y), Min(a.lo.z, b.lo.z)),
             Block(Max(a.hi.x, b.hi.x), Max(a.hi.y, b.hi.y), Max(a.hi.z, b.hi.z)))
  }

  /** `Bounds.disjoint`: the boxes are separated along at least one axis. */
  predicate Disjoint(a: Bounds, b: Bounds) {
    a.EmptyBounds? || b.EmptyBounds? ||
    a.hi.x < b.lo.x || b.hi.x < a.lo.x ||
    a.hi.y < b.lo.y || b.hi.y < a.lo.y ||
    a.hi.z < b.lo.z || b.hi.z < a.lo.z
  }

  /** Two valid boxes are disjoint exactly when no block lies in both. */
  lemma DisjointIff(a: Bounds, b: Bounds)
    requires Valid(a) && Valid(b)
    ensures Disjoint(a, b) <==> forall p :: !(InBox(p, a) && InBox(p, b))
  {
    if !Disjoint(a, b) {
      var p := Block(Max(a.lo.x, b.lo.x), Max(a.lo.y, b.lo.y), Max(a.lo.z, b.lo.z));
      assert InBox(p, a) && InBox(p, b);
    }
  }

  function Span(lo: int, hi: int): nat { if lo <= hi then hi - lo + 1 else 0 }

  /** `getBlockVolume`: the number of blocks in the box. */
  function Volume(b: Bounds): nat {
    if b.EmptyBounds? then 0
    else Span(b.lo.x, b.hi.x) * (Span(b.lo.y, b.hi.y) * Span(b.lo.z, b.hi.z))
  }

  predicate Distinct<T(==)>(s: seq<T>) {
    forall i, j | 0 <= i < j < |s| :: s[i] != s[j]
  }

  lemma DistinctAppend<T>(a: seq<T>, b: seq<T>)
    requires Distinct(a) && Distinct(b)
    requires forall p | p in a :: p !in b
    ensures Distinct(a + b)
  {
    forall i, j | 0 <= i < j < |a + b| ensures (a + b)[i] != (a + b)[j] {
      if i < |a| && j >= |a| { assert (a + b)[i] in a && (a + b)[j] in b; }
    }
  }

  /** The blocks (x, y, z) for z from lz to hz, in increasing order. */
  function Column(x: int, y: int, lz: int, hz: int): (s: seq<Block>)
    decreases hz - lz
  {
    if lz > hz then [] else [Block(x, y, lz)] + Column(x, y, lz + 1, hz)
  }

  function Slab(x: int, ly: int, hy: int, lz: int, hz: int): (s: seq<Block>)
    decreases hy - ly
  {
    if ly > hy then [] else Column(x, ly, lz, hz) + Slab(x, ly + 1, hy, lz, hz)
  }

  function Layers(lx: int, hx: int, ly: int, hy: int, lz: int, hz: int): (s: seq<Block>)
    decreases hx - lx
  {
    if lx > hx then [] else Slab(lx, ly, hy, lz, hz) + Layers(lx + 1, hx, ly, hy, lz, hz)
  }

  /** `getBlockIterator`: every block of the box, x outermost and z innermost. */
  function BoxBlocks(b: Bounds): seq<Block> {
    if b.EmptyBounds? then [] else Layers(b.lo.x, b.hi.x, b.lo.y, b.hi.y, b.lo.z, b.hi.z)
  }

  lemma {:induction false} ColumnFacts(x: int, y: int, lz: int, hz: int)
    ensures Distinct(Column(x, y, lz, hz))
    ensures |Column(x, y, lz, hz)| == Span(lz, hz)
    ensures forall p :: p in Column(x, y, lz, hz) <==> p.x == x && p.y == y && lz <= p.z <= hz
    decreases hz - lz
  {
    if lz <= hz {
      ColumnFacts(x, y, lz + 1, hz);
      DistinctAppend([Block(x, y, lz)], Column(x, y, lz + 1, hz));
    }
  }

  lemma {:induction false} SlabFacts(x: int, ly: int, hy: int, lz: int, hz: int)
    ensures Distinct(Slab(x, ly, hy, lz, hz))
    ensures |Slab(x, ly, hy, lz, hz)| == Span(ly, hy) * Span(lz, hz)
    ensures forall p :: p in Slab(x, ly, hy, lz, hz) <==>
      p.x == x && ly <= p.y <= hy && lz <= p.z <= hz
    decreases hy - ly
  {
    if ly <= hy {
      ColumnFacts(x, ly, lz, hz);
      SlabFacts(x, ly + 1, hy, lz, hz);
      DistinctAppend(Column(x, ly, lz, hz), Slab(x, ly + 1, hy, lz, hz));
      assert Span(ly, hy) == 1 + Span(ly + 1, hy);
      MulSucc(Span(ly + 1, hy), Span(lz, hz));
    }
  }

  lemma {:induction false} LayersLength(lx: int, hx: int, ly: int, hy: int, lz: int, hz: int)
    ensures |Layers(lx, hx, ly, hy, lz, hz)| == Span(lx, hx) * (Span(ly, hy) * Span(lz, hz))
    decreases hx - lx
  {
    if lx <= hx {
      SlabFacts(lx, ly, hy, lz, hz);
      LayersLength(lx + 1, hx, ly, hy, lz, hz);
      var area := Span(ly, hy) * Span(lz, hz);
      assert Span(lx, hx) == 1 + Span(lx + 1, hx);
      MulSucc(Span(lx + 1, hx), area);
    }
  }

  lemma MulSucc(a: nat, n: nat)
    ensures (1 + a) * n == n + a * n
  {
  }

  lemma {:induction false} LayersMembers(lx: int, hx: int, ly: int, hy: int, lz: int, hz: int)
    ensures Distinct(Layers(lx, hx, ly, hy, lz, hz))
    ensures forall p :: p in Layers(lx, hx, ly, hy, lz, hz) <==>
      lx <= p.x <= hx && ly <= p.y <= hy && lz <= p.z <= hz
    decreases hx - lx
  {
    if lx <= hx {
      SlabFacts(lx, ly, hy, lz, hz);
      LayersMembers(lx + 1, hx, ly, hy, lz, hz);
      DistinctAppend(Slab(lx, ly, hy, lz, hz), Layers(lx + 1, hx, ly, hy, lz, hz));
    }
  }

  /** The block enumeration of a box yields each of its blocks exactly once,
      and yields as many blocks as the box's block volume. */
  lemma BoxBlocksFacts(b: Bounds)
    ensures Distinct(BoxBlocks(b))
    ensures |BoxBlocks(b)| == Volume(b)
    ensures forall p :: p in BoxBlocks(b) <==> InBox(p, b)
  {
    if b.Box? {
      LayersLength(b.lo.x, b.hi.x, b.lo.y, b.hi.y, b.lo.z, b.hi.z);
      LayersMembers(b.lo.x, b.hi.x, b.lo.y, b.hi.y, b.lo.z, b.hi.z);
    }
  }
}
