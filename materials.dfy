/** Material helpers (`Materials.java`): the numeric material-id parser, the
    bucket and liquid tables, and the "nothing" test on item stacks. */
module Materials {
  import opened Wrappers
  import opened JavaInt

  /** The materials the tables name; every other material is `Other`, told apart
      by its registry id. */
  datatype Material =
    | Air | Water | StillWater | Lava | StillLava
    | Bucket | LavaBucket | WaterBucket | MilkBucket
    | Other(id: nat)

  /** An item stack: its type and its amount. */
  datatype ItemStack = ItemStack(material: Material, count: int)

  /** `materialId`: a one- to three-character string of decimal digits is read
      as a number; anything else gives -1.  The branches are those of the
      source's switch on the length, with the same early exits. */
  function MaterialId(text: string): (r: int)
    ensures -1 <= r <= 999
  {
    if |text| == 1 then Digit(text[0])
    else if |text| == 2 then
      var a := Digit(text[0]);
      if a == -1 then -1
      else
        var b := Digit(text[1]);
        if Min(a, b) == -1 then -1 else a * 10 + b
    else if |text| == 3 then
      var a := Digit(text[0]);
      if a == -1 then -1
      else
        var b := Digit(text[1]);
        var c := Digit(text[2]);
        if Min(b, c) == -1 then -1 else (a * 10 + b) * 10 + c
    else -1
  }

  function Min(a: int, b: int): int { if a <= b then a else b }

  /** `materialId` is the decimal value of a digit string of length 1 to 3, and is
      -1 exactly for every other string. */
  lemma MaterialIdMeaning(text: string)
    ensures 1 <= |text| <= 3 && AllDigits(text) ==> MaterialId(text) == DecimalValue(text)
    ensures MaterialId(text) == -1 <==> !(1 <= |text| <= 3 && AllDigits(text))
  {
    if 1 <= |text| <= 3 && AllDigits(text) {
      if |text| == 3 {
        assert text[..2][..1] == text[..1] && text[..1][..0] == [];
      } else if |text| == 2 {
        assert text[..1][..0] == [];
      } else {
        assert text[..0] == [];
      }
    } else if 1 <= |text| <= 3 {
      var i :| 0 <= i < |text| && !('0' <= text[i] <= '9');
      assert Digit(text[i]) == -1;
    }
  }

  /** Every id from 0 to 999 is read back from its decimal rendering. */
  lemma MaterialIdRoundTrip(n: nat)
    requires n <= 999
    ensures MaterialId(ToDecimal(n)) == n
  {
    ToDecimalLength(n);
    DecimalRoundTrip(n);
    MaterialIdMeaning(ToDecimal(n));
  }

  /** Strings outside the length range are never ids, whatever they hold. */
  lemma MaterialIdLength(text: string)
    requires |text| == 0 || |text| > 3
    ensures MaterialId(text) == -1
  {
  }

  /** `isWater`: the flowing and the still variant. */
  predicate IsWater(m: Material) {
    m == Water || m == StillWater
  }

  /** `isLava`: the flowing and the still variant. */
  predicate IsLava(m: Material) {
    m == Lava || m == StillLava
  }

  /** `isLiquid`: water or lava. */
  predicate IsLiquid(m: Material) {
    IsWater(m) || IsLava(m)
  }

  /** Exactly four materials are liquids, and no material is both water and lava. */
  lemma LiquidTable(m: Material)
    ensures IsLiquid(m) <==> m in {Water, StillWater, Lava, StillLava}
    ensures !(IsWater(m) && IsLava(m))
  {
  }

  /** `isBucket`: the empty bucket and the three filled ones. */
  predicate IsBucket(m: Material) {
    m == Bucket || m == LavaBucket || m == WaterBucket || m == MilkBucket
  }

  /** `materialInBucket`: what a bucket holds; any other material is the
      `IllegalArgumentException`, here a `Failure`. */
  function MaterialInBucket(m: Material): (r: Result<Material, string>)
    ensures r.Success? <==> IsBucket(m)
    ensures r.Success? ==> r.value == Air || IsLiquid(r.value)
  {
    match m
    case Bucket => Success(Air)
    case MilkBucket => Success(Air)
    case LavaBucket => Success(Lava)
    case WaterBucket => Success(Water)
    case _ => Failure("is not a bucket")
  }

  /** The contents of each bucket: the empty and the milk bucket hold air, the
      lava bucket flowing lava, the water bucket flowing water; a bucket's content
      is never itself a bucket. */
  lemma BucketContents(m: Material)
    requires IsBucket(m)
    ensures m == Bucket || m == MilkBucket ==> MaterialInBucket(m) == Success(Air)
    ensures m == LavaBucket ==> MaterialInBucket(m) == Success(Lava)
    ensures m == WaterBucket ==> MaterialInBucket(m) == Success(Water)
    ensures !IsBucket(MaterialInBucket(m).value)
    ensures IsLava(MaterialInBucket(m).value) <==> m == LavaBucket
    ensures IsWater(MaterialInBucket(m).value) <==> m == WaterBucket
  {
  }

  /** `amount`: a missing stack and a stack of air hold nothing. */
  function Amount(stack: Option<ItemStack>): (n: int)
    ensures stack.None? ==> n == 0
    ensures stack.Some? && stack.value.material != Air ==> n == stack.value.count
    ensures stack.Some? && stack.value.material == Air ==> n == 0
  {
    if stack.None? || stack.value.material == Air then 0 else stack.value.count
  }

  /** `isNothing`. */
  predicate IsNothing(stack: Option<ItemStack>) {
    Amount(stack) == 0
  }

  /** A stack is nothing exactly when it is missing, is air, or has amount zero;
      in particular a missing stack is nothing. */
  lemma IsNothingCases(stack: Option<ItemStack>)
    ensures IsNothing(stack) <==>
      stack.None? || stack.value.material == Air || stack.value.count == 0
    ensures stack.None? ==> IsNothing(stack)
  {
  }
}
