/** The region union (`Union.java`): containment and the other queries over the
    children, the bounds fold, the `of` factory, and the once-per-instance choice
    between three ways of enumerating the union's blocks. Primitive shapes are
    abstract: a shape lists its blocks and carries its bounds and its flags. */
module Regions {
  import opened Wrappers
  import opened JavaInt
  import opened Geometry

  /** An abstract primitive region: the blocks it contains, in the order its own
      block iterator yields them, its bounds, and whether it is static and
      block-bounded. */
  datatype Shape = Shape(blocks: seq<Block>, bounds: Bounds, isStatic: bool, isBlockBounded: bool)

  datatype Region =
    | EmptyRegion
    | Primitive(shape: Shape)
    | UnionOf(children: seq<Region>)

  /** A cuboid primitive: exactly the blocks of a box. */
  function Cuboid(b: Bounds): Region {
    Primitive(Shape(BoxBlocks(b), b, true, true))
  }

  /** Well-formed regions: each primitive yields each of its blocks once and
      keeps them inside its (valid) bounds. */
  predicate WellFormed(r: Region) {
    match r
    case EmptyRegion => true
    case Primitive(s) =>
      Valid(s.bounds) && Distinct(s.blocks) && forall p | p in s.blocks :: InBox(p, s.bounds)
    case UnionOf(cs) => forall i | 0 <= i < |cs| :: WellFormed(cs[i])
  }

  /** `contains`: a union contains a point when some child (in its static form)
      contains it. */
  predicate Contains(r: Region, p: Block) {
    match r
    case EmptyRegion => false
    case Primitive(s) => p in s.blocks
    case UnionOf(cs) => exists i | 0 <= i < |cs| :: Contains(cs[i], p)
  }

  predicate IsBlockBounded(r: Region) {
    match r
    case EmptyRegion => true
    case Primitive(s) => s.isBlockBounded
    case UnionOf(cs) => forall i | 0 <= i < |cs| :: IsBlockBounded(cs[i])
  }

  predicate IsStatic(r: Region) {
    match r
    case EmptyRegion => true
    case Primitive(s) => s.isStatic
    case UnionOf(cs) => forall i | 0 <= i < |cs| :: IsStatic(cs[i])
  }

  predicate IsEmpty(r: Region) {
    match r
    case EmptyRegion => true
    case Primitive(s) => |s.blocks| == 0
    case UnionOf(cs) => forall i | 0 <= i < |cs| :: IsEmpty(cs[i])
  }

  /** `getBounds`. */
  function BoundsOf(r: Region): Bounds {
    match r
    case EmptyRegion => EmptyBounds
    case Primitive(s) => s.bounds
    case UnionOf(cs) => FoldBounds(cs)
  }

  /** The left fold of `Bounds.union` over the children, from `Bounds.empty()`. */
  function FoldBounds(cs: seq<Region>): Bounds
    decreases cs
  {
    if |cs| == 0 then EmptyBounds
    else Geometry.Union(FoldBounds(cs[..|cs| - 1]), BoundsOf(cs[|cs| - 1]))
  }

  /** `Union.of`: no region, one region itself, or a union of all of them; in
      every case the result contains exactly what some argument contains. */
  function Of(rs: seq<Region>): (r: Region)
    ensures |rs| == 0 ==> r == EmptyRegion
    ensures |rs| == 1 ==> r == rs[0]
    ensures |rs| >= 2 ==> r == UnionOf(rs)
    ensures forall p :: Contains(r, p) <==> exists i | 0 <= i < |rs| :: Contains(rs[i], p)
  {
    if |rs| == 0 then EmptyRegion
    else if |rs| == 1 then rs[0]
    else UnionOf(rs)
  }

  /** Whichever region `of` returns, it answers the three queries as the union
      of its arguments does: it is block-bounded, static or empty exactly when
      every argument is, and it has the union's bounds. */
  lemma OfQueries(rs: seq<Region>)
    ensures IsBlockBounded(Of(rs)) <==> forall i | 0 <= i < |rs| :: IsBlockBounded(rs[i])
    ensures IsStatic(Of(rs)) <==> forall i | 0 <= i < |rs| :: IsStatic(rs[i])
    ensures IsEmpty(Of(rs)) <==> forall i | 0 <= i < |rs| :: IsEmpty(rs[i])
    ensures BoundsOf(Of(rs)) == FoldBounds(rs)
  {
    if |rs| == 1 {
      assert rs[..0] == [];
      assert FoldBounds(rs) == Geometry.Union(EmptyBounds, BoundsOf(rs[0]));
    }
  }

  // ---------------------------------------------------------------------------
  // Block enumeration

  datatype Strategy =
    | FullScan
    | ChildScan
    | FilteredChildScan(sumVolume: int)

  const DISJOINT_CHECK_LIMIT: nat := 100
  const DENSITY_FACTOR: int := 5

  predicate PairwiseDisjoint(cs: seq<Region>) {
    forall i, j | 0 <= i < j < |cs| :: Disjoint(BoundsOf(cs[i]), BoundsOf(cs[j]))
  }

  /** Child `i`'s bounds are disjoint from those of every later child. */
  predicate DisjointFromLater(cs: seq<Region>, i: nat)
    requires i < |cs|
  {
    forall b | i < b < |cs| :: Disjoint(BoundsOf(cs[i]), BoundsOf(cs[b]))
  }

  lemma PairwiseDisjointIff(cs: seq<Region>)
    ensures PairwiseDisjoint(cs) <==> forall a | 0 <= a < |cs| :: DisjointFromLater(cs, a)
  {
    if forall a | 0 <= a < |cs| :: DisjointFromLater(cs, a) {
      forall a, b | 0 <= a < b < |cs| ensures Disjoint(BoundsOf(cs[a]), BoundsOf(cs[b])) {
        assert DisjointFromLater(cs, a);
      }
    }
  }

  /** The exact sum of the children's block volumes. */
  function SumVolumes(cs: seq<Region>): int {
    if |cs| == 0 then 0 else SumVolumes(cs[..|cs| - 1]) + Volume(BoundsOf(cs[|cs| - 1]))
  }

  /** `childrenVolume`: a Java `int`, so the sum wraps modulo 2^32. */
  function ChildrenVolume(cs: seq<Region>): int {
    Wrap32(SumVolumes(cs))
  }

  /** The strategy `createIteratorFactory` picks. `getBlockVolume` is taken to
      return an `int`, so each volume and the product `childrenVolume * 5` wrap. */
  function ChooseStrategy(cs: seq<Region>): Strategy {
    if !IsStatic(UnionOf(cs)) then FullScan
    else if |cs| < DISJOINT_CHECK_LIMIT && PairwiseDisjoint(cs) then ChildScan
    else if Wrap32(Volume(FoldBounds(cs))) < Wrap32(ChildrenVolume(cs) * DENSITY_FACTOR) then FullScan
    else FilteredChildScan(ChildrenVolume(cs))
  }

  /** The blocks of `s` that `r` contains, in order (`filter(..., this::contains)`). */
  function KeepContained(s: seq<Block>, r: Region): seq<Block> {
    if |s| == 0 then []
    else (if Contains(r, s[0]) then [s[0]] else []) + KeepContained(s[1..], r)
  }

  /** The blocks of `s` whose first occurrence is not in `visited`, in order: the
      `filter(childScan(), visited::add)` of the filtered child scan. */
  function DedupFrom(s: seq<Block>, visited: set<Block>): seq<Block> {
    if |s| == 0 then []
    else if s[0] in visited then DedupFrom(s[1..], visited)
    else [s[0]] + DedupFrom(s[1..], visited + {s[0]})
  }

  /** What `getBlockVectorIterator` yields. */
  function Blocks(r: Region): seq<Block>
    decreases r
  {
    match r
    case EmptyRegion => []
    case Primitive(s) => s.blocks
    case UnionOf(cs) =>
      match ChooseStrategy(cs)
      case FullScan => KeepContained(BoxBlocks(FoldBounds(cs)), r)
      case ChildScan => ChildBlocks(cs)
      case FilteredChildScan(_) => DedupFrom(ChildBlocks(cs), {})
  }

  /** `childScan`: the children's own block sequences, concatenated. */
  function ChildBlocks(cs: seq<Region>): seq<Block>
    decreases cs
  {
    if |cs| == 0 then [] else Blocks(cs[0]) + ChildBlocks(cs[1..])
  }

  // ---------------------------------------------------------------------------
  // Properties of the union geometry

  /** The fold yields the smallest box holding every child's bounds. */
  lemma {:induction false} FoldBoundsIsHull(cs: seq<Region>)
    ensures forall i | 0 <= i < |cs| :: Within(BoundsOf(cs[i]), FoldBounds(cs))
    ensures forall c :: (forall i | 0 <= i < |cs| :: Within(BoundsOf(cs[i]), c)) ==> Within(FoldBounds(cs), c)
    ensures (forall i | 0 <= i < |cs| :: Valid(BoundsOf(cs[i]))) ==> Valid(FoldBounds(cs))
  {
    if |cs| > 0 {
      var init := cs[..|cs| - 1];
      FoldBoundsIsHull(init);
      assert forall i | 0 <= i < |init| :: init[i] == cs[i];
      forall c | forall i | 0 <= i < |cs| :: Within(BoundsOf(cs[i]), c)
        ensures Within(FoldBounds(cs), c)
      {
        assert forall i | 0 <= i < |init| :: Within(BoundsOf(init[i]), c);
      }
      forall i | 0 <= i < |cs|
        ensures Within(BoundsOf(cs[i]), FoldBounds(cs))
      {
        if i < |cs| - 1 {
          assert Within(BoundsOf(init[i]), FoldBounds(init));
          WithinTrans(BoundsOf(cs[i]), FoldBounds(init), FoldBounds(cs));
        }
      }
    }
  }

  lemma WithinTrans(a: Bounds, b: Bounds, c: Bounds)
    requires Within(a, b) && Within(b, c)
    ensures Within(a, c)
  {
  }

  /** Every block a well-formed region contains lies inside its bounds. */
  lemma {:induction false} ContainedWithinBounds(r: Region)
    requires WellFormed(r)
    ensures Valid(BoundsOf(r))
    ensures forall p | Contains(r, p) :: InBox(p, BoundsOf(r))
  {
    match r
    case EmptyRegion =>
    case Primitive(s) =>
    case UnionOf(cs) =>
      forall i | 0 <= i < |cs| ensures Valid(BoundsOf(cs[i])) &&
        forall p | Contains(cs[i], p) :: InBox(p, BoundsOf(cs[i]))
      {
        ContainedWithinBounds(cs[i]);
      }
      FoldBoundsIsHull(cs);
      forall p | Contains(r, p) ensures InBox(p, BoundsOf(r)) {
        var i :| 0 <= i < |cs| && Contains(cs[i], p);
        WithinInBox(p, BoundsOf(cs[i]), FoldBounds(cs));
      }
  }

  lemma {:induction false} KeepContainedFacts(s: seq<Block>, r: Region)
    ensures Distinct(s) ==> Distinct(KeepContained(s, r))
    ensures forall p :: p in KeepContained(s, r) <==> p in s && Contains(r, p)
  {
    if |s| > 0 {
      KeepContainedFacts(s[1..], r);
      var head := if Contains(r, s[0]) then [s[0]] else [];
      assert forall p :: p in s <==> p == s[0] || p in s[1..];
      if Distinct(s) {
        assert Distinct(s[1..]);
        assert s[0] !in s[1..];
        DistinctAppend(head, KeepContained(s[1..], r));
      }
    }
  }

  /** The visited filter yields each block of its source once, skipping those
      already visited. */
  lemma {:induction false} DedupFacts(s: seq<Block>, visited: set<Block>)
    ensures Distinct(DedupFrom(s, visited))
    ensures forall p :: p in DedupFrom(s, visited) <==> p in s && p !in visited
  {
    if |s| > 0 {
      assert forall p :: p in s <==> p == s[0] || p in s[1..];
      if s[0] in visited {
        DedupFacts(s[1..], visited);
      } else {
        DedupFacts(s[1..], visited + {s[0]});
        DistinctAppend([s[0]], DedupFrom(s[1..], visited + {s[0]}));
      }
    }
  }

  /** A source without repeats passes the visited filter unchanged. */
  lemma {:induction false} DedupDistinct(s: seq<Block>, visited: set<Block>)
    requires Distinct(s) && forall p | p in s :: p !in visited
    ensures DedupFrom(s, visited) == s
  {
    if |s| > 0 {
      assert Distinct(s[1..]);
      assert s[0] !in s[1..];
      DedupDistinct(s[1..], visited + {s[0]});
    }
  }

  lemma {:induction false} ChildBlocksMembers(cs: seq<Region>)
    ensures forall p :: p in ChildBlocks(cs) <==> exists i | 0 <= i < |cs| :: p in Blocks(cs[i])
  {
    if |cs| > 0 {
      ChildBlocksMembers(cs[1..]);
      assert forall i | 0 <= i < |cs| - 1 :: cs[1..][i] == cs[i + 1];
      forall p | p in ChildBlocks(cs)
        ensures exists i | 0 <= i < |cs| :: p in Blocks(cs[i])
      {
        if p !in Blocks(cs[0]) {
          assert p in ChildBlocks(cs[1..]);
          var k :| 0 <= k < |cs| - 1 && p in Blocks(cs[1..][k]);
          assert p in Blocks(cs[k + 1]);
        }
      }
      forall p, i | 0 <= i < |cs| && p in Blocks(cs[i])
        ensures p in ChildBlocks(cs)
      {
        if i > 0 { assert p in Blocks(cs[1..][i - 1]); }
      }
    }
  }

  lemma {:induction false} ChildBlocksDistinct(cs: seq<Region>)
    requires forall i | 0 <= i < |cs| :: Distinct(Blocks(cs[i]))
    requires forall i, j, p | 0 <= i < j < |cs| :: !(p in Blocks(cs[i]) && p in Blocks(cs[j]))
    ensures Distinct(ChildBlocks(cs))
  {
    if |cs| > 0 {
      var rest := cs[1..];
      assert forall i | 0 <= i < |rest| :: rest[i] == cs[i + 1];
      ChildBlocksDistinct(rest);
      ChildBlocksMembers(rest);
      forall p | p in Blocks(cs[0]) ensures p !in ChildBlocks(rest) {
        forall k | 0 <= k < |rest| ensures p !in Blocks(rest[k]) {
          assert rest[k] == cs[k + 1];
        }
      }
      DistinctAppend(Blocks(cs[0]), ChildBlocks(rest));
    }
  }

  /** The central property of the union's enumeration: whichever strategy is
      chosen, the blocks yielded are exactly the blocks the region contains, and
      no block is yielded twice. */
  lemma {:induction false} BlocksCorrect(r: Region)
    requires WellFormed(r)
    ensures Distinct(Blocks(r))
    ensures forall p :: p in Blocks(r) <==> Contains(r, p)
  {
    match r
    case EmptyRegion =>
    case Primitive(s) =>
    case UnionOf(cs) =>
      forall i | 0 <= i < |cs|
        ensures Distinct(Blocks(cs[i])) && forall p :: p in Blocks(cs[i]) <==> Contains(cs[i], p)
      {
        BlocksCorrect(cs[i]);
      }
      ChildBlocksMembers(cs);
      match ChooseStrategy(cs)
      case FullScan =>
        BoxBlocksFacts(FoldBounds(cs));
        KeepContainedFacts(BoxBlocks(FoldBounds(cs)), r);
        ContainedWithinBounds(r);
      case ChildScan =>
        forall i, j, p | 0 <= i < j < |cs| && p in Blocks(cs[i]) ensures p !in Blocks(cs[j]) {
          ContainedWithinBounds(cs[i]);
          ContainedWithinBounds(cs[j]);
          DisjointIff(BoundsOf(cs[i]), BoundsOf(cs[j]));
          assert InBox(p, BoundsOf(cs[i]));
        }
        ChildBlocksDistinct(cs);
      case FilteredChildScan(_) =>
        DedupFacts(ChildBlocks(cs), {});
  }

  /** `isEmpty` holds of a well-formed region exactly when it contains no block. */
  lemma {:induction false} IsEmptyIff(r: Region)
    requires WellFormed(r)
    ensures IsEmpty(r) <==> forall p :: !Contains(r, p)
  {
    match r
    case EmptyRegion =>
    case Primitive(s) =>
      if |s.blocks| > 0 { assert Contains(r, s.blocks[0]); }
    case UnionOf(cs) =>
      forall i | 0 <= i < |cs| ensures IsEmpty(cs[i]) <==> forall p :: !Contains(cs[i], p) {
        IsEmptyIff(cs[i]);
      }
      if !IsEmpty(r) {
        var i :| 0 <= i < |cs| && !IsEmpty(cs[i]);
        var p :| Contains(cs[i], p);
        assert Contains(r, p);
      }
  }

  /** A union of no regions contains nothing, and all three queries hold of it. */
  lemma EmptyUnion(p: Block)
    ensures !Contains(UnionOf([]), p)
    ensures IsBlockBounded(UnionOf([])) && IsStatic(UnionOf([])) && IsEmpty(UnionOf([]))
    ensures BoundsOf(UnionOf([])) == EmptyBounds
  {
  }

  /** The three ways the strategy falls out, spelled as conditions on the
      children. */
  lemma StrategyCases(cs: seq<Region>)
    ensures !IsStatic(UnionOf(cs)) ==> ChooseStrategy(cs) == FullScan
    ensures ChooseStrategy(cs) == ChildScan <==>
      (IsStatic(UnionOf(cs)) && |cs| < DISJOINT_CHECK_LIMIT && PairwiseDisjoint(cs))
    ensures ChooseStrategy(cs).FilteredChildScan? <==>
      (IsStatic(UnionOf(cs)) && !(|cs| < DISJOINT_CHECK_LIMIT && PairwiseDisjoint(cs)) &&
       !(Wrap32(Volume(FoldBounds(cs))) < Wrap32(ChildrenVolume(cs) * DENSITY_FACTOR)))
  {
  }

  /** While the volumes fit in an `int`, the wrapped sum is the exact sum. */
  lemma ChildrenVolumeExact(cs: seq<Region>)
    requires SumVolumes(cs) <= INT_MAX
    ensures ChildrenVolume(cs) == SumVolumes(cs)
  {
    SumVolumesNonNegative(cs);
  }

  lemma {:induction false} SumVolumesNonNegative(cs: seq<Region>)
    ensures SumVolumes(cs) >= 0
  {
    if |cs| > 0 { SumVolumesNonNegative(cs[..|cs| - 1]); }
  }

  /** Two disjoint single-block cuboids: the union enumerates by child scan and
      yields two blocks. */
  lemma DisjointCubesScenario()
    ensures var a := Cuboid(Box(Block(0, 0, 0), Block(0, 0, 0)));
            var b := Cuboid(Box(Block(5, 5, 5), Block(5, 5, 5)));
            ChooseStrategy([a, b]) == ChildScan && |Blocks(UnionOf([a, b]))| == 2
  {
    var a := Cuboid(Box(Block(0, 0, 0), Block(0, 0, 0)));
    var b := Cuboid(Box(Block(5, 5, 5), Block(5, 5, 5)));
    BoxBlocksFacts(a.shape.bounds);
    BoxBlocksFacts(b.shape.bounds);
    assert [a, b][1..] == [b];
  }

  /** Facts about a union of exactly two children. */
  lemma TwoChildren(a: Region, b: Region)
    ensures FoldBounds([a, b]) == Geometry.Union(BoundsOf(a), BoundsOf(b))
    ensures SumVolumes([a, b]) == Volume(BoundsOf(a)) + Volume(BoundsOf(b))
    ensures PairwiseDisjoint([a, b]) <==> Disjoint(BoundsOf(a), BoundsOf(b))
  {
    assert [a, b][..1] == [a] && [a][..0] == [];
    assert FoldBounds([a]) == BoundsOf(a);
    assert SumVolumes([a]) == Volume(BoundsOf(a));
    assert PairwiseDisjoint([a, b]) <== Disjoint(BoundsOf(a), BoundsOf(b));
    assert PairwiseDisjoint([a, b]) ==> Disjoint(BoundsOf([a, b][0]), BoundsOf([a, b][1]));
  }

  lemma VolumePositive(b: Bounds)
    requires b.Box? && Valid(b)
    ensures Volume(b) >= 1
  {
    var sx, sy, sz := Span(b.lo.x, b.hi.x), Span(b.lo.y, b.hi.y), Span(b.lo.z, b.hi.z);
    assert sy * sz >= 1 by { MulSucc(sz, sy - 1); }
    MulSucc(sy * sz, sx - 1);
  }

  /** A union of one cuboid with itself: its bounds are one box whose volume is a
      fifth of the children's, so the union is scanned in full, and it yields
      exactly the cuboid's blocks, in the cuboid's own order. */
  lemma DuplicateCuboid(box: Bounds)
    requires box.Box? && Valid(box) && Volume(box) <= 200000000
    ensures ChooseStrategy([Cuboid(box), Cuboid(box)]) == FullScan
    ensures Blocks(UnionOf([Cuboid(box), Cuboid(box)])) == BoxBlocks(box)
  {
    var c := Cuboid(box);
    var u := UnionOf([c, c]);
    TwoChildren(c, c);
    VolumePositive(box);
    assert !Disjoint(box, box);
    assert ChildrenVolume([c, c]) == 2 * Volume(box);
    BoxBlocksFacts(box);
    assert forall p | p in BoxBlocks(box) :: Contains(u, p) by {
      assert forall p | p in BoxBlocks(box) :: Contains([c, c][0], p);
    }
    KeepAllContained(BoxBlocks(box), u);
  }

  lemma {:induction false} KeepAllContained(s: seq<Block>, r: Region)
    requires forall p | p in s :: Contains(r, p)
    ensures KeepContained(s, r) == s
  {
    if |s| > 0 { KeepAllContained(s[1..], r); }
  }

  /** Two thin static primitives, one along each of two axes, that meet at a
      corner: their bounds overlap and their hull has 121 blocks against 22 in the
      children, so the filtered child scan is used; it yields each contained block
      once although the corner lies in both children. */
  lemma SparseOverlapScenario(sa: Shape, sb: Shape)
    requires sa.bounds == Box(Block(0, 0, 0), Block(0, 0, 10)) && sa.isStatic
    requires sb.bounds == Box(Block(0, 0, 0), Block(10, 0, 0)) && sb.isStatic
    requires WellFormed(Primitive(sa)) && WellFormed(Primitive(sb))
    ensures ChooseStrategy([Primitive(sa), Primitive(sb)]) == FilteredChildScan(22)
    ensures Distinct(Blocks(UnionOf([Primitive(sa), Primitive(sb)])))
    ensures forall p :: p in Blocks(UnionOf([Primitive(sa), Primitive(sb)])) <==>
      p in sa.blocks || p in sb.blocks
  {
    var a, b := Primitive(sa), Primitive(sb);
    TwoChildren(a, b);
    var hull := Box(Block(0, 0, 0), Block(10, 0, 10));
    assert FoldBounds([a, b]) == hull;
    assert Volume(hull) == 121;
    assert Volume(sa.bounds) == 11 && Volume(sb.bounds) == 11;
    assert ChildrenVolume([a, b]) == 22;
    assert Wrap32(Volume(hull)) == 121 && Wrap32(22 * DENSITY_FACTOR) == 110;
    assert !Disjoint(sa.bounds, sb.bounds);
    assert IsStatic(UnionOf([a, b]));
    var u := UnionOf([a, b]);
    assert WellFormed(u);
    BlocksCorrect(u);
    assert forall p :: Contains(u, p) <==> Contains([a, b][0], p) || Contains([a, b][1], p);
  }

  // ---------------------------------------------------------------------------
  // The union as an object: its children and the memoised strategy

  class Union {
    const regions: seq<Region>
    var iteratorFactory: Option<Strategy>

    /** The memo, once set, holds the strategy the children call for. */
    ghost predicate Valid()
      reads this
    {
      iteratorFactory.Some? ==> iteratorFactory.value == ChooseStrategy(regions)
    }

    constructor (regions: seq<Region>)
      ensures this.regions == regions && iteratorFactory == None && Valid()
    {
      this.regions := regions;
      iteratorFactory := None;
    }

    /** `getBounds`: accumulates `Bounds.union` over the children. */
    method GetBounds() returns (bounds: Bounds)
      ensures bounds == FoldBounds(regions)
    {
      bounds := EmptyBounds;
      for i := 0 to |regions|
        invariant bounds == FoldBounds(regions[..i])
      {
        assert regions[..i + 1][..i] == regions[..i];
        bounds := Geometry.Union(bounds, BoundsOf(regions[i]));
      }
      assert regions[..|regions|] == regions;
    }

    /** `createIteratorFactory`: the pairwise disjointness test (skipped for 100
        children or more) and the wrapped volume sum, in one nested loop. */
    method CreateIteratorFactory() returns (strategy: Strategy)
      ensures strategy == ChooseStrategy(regions)
    {
      if !IsStatic(UnionOf(regions)) {
        return FullScan;
      }
      var n := |regions|;
      var disjoint := n < DISJOINT_CHECK_LIMIT;
      var childrenVolume := 0;
      for i := 0 to n
        invariant childrenVolume == Wrap32(SumVolumes(regions[..i]))
        invariant disjoint <==> (n < DISJOINT_CHECK_LIMIT && forall a | 0 <= a < i :: DisjointFromLater(regions, a))
      {
        var bounds := BoundsOf(regions[i]);
        assert regions[..i + 1][..i] == regions[..i];
        Wrap32Add(SumVolumes(regions[..i]), Volume(bounds));
        childrenVolume := Wrap32(childrenVolume + Wrap32(Volume(bounds)));
        if disjoint {
          disjoint := CheckLater(i);
        }
      }
      PairwiseDisjointIff(regions);
      assert regions[..n] == regions;
      if disjoint {
        return ChildScan;
      }
      var unionBounds := GetBounds();
      Wrap32Mul(SumVolumes(regions), DENSITY_FACTOR);
      if Wrap32(Volume(unionBounds)) < Wrap32(childrenVolume * DENSITY_FACTOR) {
        return FullScan;
      }
      return FilteredChildScan(childrenVolume);
    }

    /** The inner loop of `createIteratorFactory`: child `i`'s bounds against
        the bounds of every later child. */
    method CheckLater(i: nat) returns (disjoint: bool)
      requires i < |regions|
      ensures disjoint <==> DisjointFromLater(regions, i)
    {
      var bounds := BoundsOf(regions[i]);
      disjoint := true;
      var j := i + 1;
      while disjoint && j < |regions|
        invariant i + 1 <= j <= |regions|
        invariant disjoint <==> forall b | i < b < j :: Disjoint(bounds, BoundsOf(regions[b]))
      {
        if !Disjoint(bounds, BoundsOf(regions[j])) {
          disjoint := false;
        }
        j := j + 1;
      }
    }

    /** `fullScan`: the blocks of the union's bounds that the union contains. */
    method FullScanBlocks() returns (blocks: seq<Block>)
      ensures blocks == KeepContained(BoxBlocks(FoldBounds(regions)), UnionOf(regions))
    {
      var bounds := GetBounds();
      blocks := KeepContained(BoxBlocks(bounds), UnionOf(regions));
    }

    /** `getBlockVectorIterator`: picks the strategy on the first call, caches it,
        and reuses the cached one on every later call. */
    method GetBlockVectorIterator() returns (blocks: seq<Block>)
      requires Valid()
      modifies this
      ensures Valid() && iteratorFactory == Some(ChooseStrategy(regions))
      ensures old(iteratorFactory).Some? ==> iteratorFactory == old(iteratorFactory)
      ensures blocks == Blocks(UnionOf(regions))
    {
      if iteratorFactory.None? {
        var factory := CreateIteratorFactory();
        iteratorFactory := Some(factory);
      }
      match iteratorFactory.value
      case FullScan =>
        blocks := FullScanBlocks();
      case ChildScan =>
        blocks := ChildBlocks(regions);
      case FilteredChildScan(sumVolume) =>
        blocks := FilterVisited(ChildBlocks(regions));
    }
  }

  /** The filtered child scan: a `visited` set, filled as blocks pass, drops every
      block seen before. */
  method FilterVisited(source: seq<Block>) returns (blocks: seq<Block>)
    ensures blocks == DedupFrom(source, {})
  {
    var visited: set<Block> := {};
    blocks := [];
    for i := 0 to |source|
      invariant blocks + DedupFrom(source[i..], visited) == DedupFrom(source, {})
    {
      assert source[i..][1..] == source[i + 1..];
      if source[i] !in visited {
        visited := visited + {source[i]};
        blocks := blocks + [source[i]];
      }
    }
  }
}
