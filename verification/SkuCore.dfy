/** Codes, combination keys, potential combinations and amounts of the SKU catalogue. */
module SkuCore {
  import opened Basics
  import opened RowOrder

  datatype Problem =
    | ValidationFailed | SpuCodeMismatch | SpuCodeConflict | IdempotencyConflict | VersionConflict | TransitionBlocked
    | CombinationConflict | RestoreRequired | CapacityExhausted | NotFound

  datatype Result<+T> = Ok(value: T) | Err(problem: Problem)

  const MAX_DIMENSIONS := 5
  const MAX_VALUES_PER_DIMENSION := 100
  const MAX_COMBINATIONS := 100
  const CAPACITY := 100

  // ----- SKU codes -----

  predicate Control(c: char) { c <= '\U{001F}' || c == '\U{007F}' }

  predicate ValidSpuCode(code: string) {
    1 <= |code| <= 126 && !Space(code[0]) && !Space(code[|code| - 1]) && forall c | c in code :: !Control(c)
  }

  function Digit(n: nat): char
    requires n < 10
  {
    '0' + n as char
  }

  function FormatSkuCode(spuCode: string, sequence: int): Result<string> {
    if !ValidSpuCode(spuCode) || !(0 <= sequence <= 99) then Err(ValidationFailed)
    else Ok(spuCode + [Digit(sequence / 10), Digit(sequence % 10)])
  }

  /** A SKU code names its product code and its sequence, also across products. */
  lemma SkuCodeNamesItsOrigin(spuA: string, i: int, spuB: string, j: int)
    requires FormatSkuCode(spuA, i).Ok? && FormatSkuCode(spuB, j).Ok?
    ensures FormatSkuCode(spuA, i) == FormatSkuCode(spuB, j) <==> spuA == spuB && i == j
  {
    var a, b := FormatSkuCode(spuA, i).value, FormatSkuCode(spuB, j).value;
    if a == b {
      assert spuA == a[..|a| - 2] == b[..|b| - 2] == spuB;
      assert a[|a| - 2] == Digit(i / 10) && a[|a| - 1] == Digit(i % 10);
      assert b[|b| - 2] == Digit(j / 10) && b[|b| - 1] == Digit(j % 10);
    }
  }

  // ----- combination keys -----

  datatype Pair = Pair(dimension: string, value: string)

  function InsertPair(p: Pair, key: seq<Pair>): (r: seq<Pair>)
    ensures multiset(r) == multiset(key) + multiset{p}
  {
    if key == [] || CompareStrings(p.dimension, key[0].dimension) <= 0 then [p] + key
    else
      assert key == [key[0]] + key[1..];
      [key[0]] + InsertPair(p, key[1..])
  }

  /** The pairs in the order of their dimensions. */
  function CombinationKey(pairs: seq<Pair>): (key: seq<Pair>)
    ensures multiset(key) == multiset(pairs)
  {
    if pairs == [] then [] else
      assert pairs == [pairs[0]] + pairs[1..];
      InsertPair(pairs[0], CombinationKey(pairs[1..]))
  }

  predicate DistinctDimensions(pairs: seq<Pair>) { forall i, j | 0 <= i < j < |pairs| :: pairs[i].dimension != pairs[j].dimension }

  function Dimensions(pairs: seq<Pair>): (ds: seq<string>)
    ensures |ds| == |pairs| && forall i | 0 <= i < |pairs| :: ds[i] == pairs[i].dimension
  {
    seq(|pairs|, i requires 0 <= i < |pairs| => pairs[i].dimension)
  }

  lemma {:induction false} InsertAscends(p: Pair, key: seq<Pair>)
    requires AscendingCodes(Dimensions(key)) && forall q | q in key :: q.dimension != p.dimension
    ensures AscendingCodes(Dimensions(InsertPair(p, key)))
  {
    if key == [] {
    } else if CompareStrings(p.dimension, key[0].dimension) <= 0 {
      forall i | 0 <= i < |key| ensures CompareStrings(p.dimension, key[i].dimension) < 0 {
        StringsOrdered(p.dimension, key[0].dimension, key[i].dimension);
        if i > 0 { assert CompareStrings(Dimensions(key)[0], Dimensions(key)[i]) < 0; }
        assert key[i] in key;
      }
    } else {
      var tail := InsertPair(p, key[1..]);
      assert AscendingCodes(Dimensions(key[1..])) by {
        forall i, j | 0 <= i < j < |key| - 1 ensures CompareStrings(key[1..][i].dimension, key[1..][j].dimension) < 0 {
          assert CompareStrings(Dimensions(key)[i + 1], Dimensions(key)[j + 1]) < 0;
        }
      }
      InsertAscends(p, key[1..]);
      HeadBelowTail(p, key, tail);
    }
  }

  lemma HeadBelowTail(p: Pair, key: seq<Pair>, tail: seq<Pair>)
    requires key != [] && AscendingCodes(Dimensions(key)) && CompareStrings(p.dimension, key[0].dimension) > 0
    requires multiset(tail) == multiset(key[1..]) + multiset{p} && AscendingCodes(Dimensions(tail))
    ensures AscendingCodes(Dimensions([key[0]] + tail))
  {
    forall i | 0 <= i < |tail| ensures CompareStrings(key[0].dimension, tail[i].dimension) < 0 {
      StringsOrdered(p.dimension, key[0].dimension, "");
      assert tail[i] in multiset(tail);
      if tail[i] != p {
        var k :| 0 <= k < |key| - 1 && key[1..][k] == tail[i];
        assert CompareStrings(Dimensions(key)[0], Dimensions(key)[k + 1]) < 0;
      }
    }
    assert Dimensions([key[0]] + tail) == [key[0].dimension] + Dimensions(tail);
  }

  lemma {:induction false} KeyAscends(pairs: seq<Pair>)
    requires DistinctDimensions(pairs)
    ensures AscendingCodes(Dimensions(CombinationKey(pairs)))
  {
    if pairs != [] {
      KeyAscends(pairs[1..]);
      forall q | q in CombinationKey(pairs[1..]) ensures q.dimension != pairs[0].dimension {
        assert q in multiset(CombinationKey(pairs[1..]));
        var i :| 0 <= i < |pairs| - 1 && pairs[1..][i] == q;
        assert pairs[i + 1] == q;
      }
      InsertAscends(pairs[0], CombinationKey(pairs[1..]));
    }
  }

  lemma AscendingPairsUnique(a: seq<Pair>, b: seq<Pair>)
    requires AscendingCodes(Dimensions(a)) && AscendingCodes(Dimensions(b)) && multiset(a) == multiset(b)
    ensures a == b
  {
    forall d ensures d in Dimensions(a) <==> d in Dimensions(b) {
      DimensionsCover(a, b, d);
      DimensionsCover(b, a, d);
    }
    ListingUnique(Dimensions(a), Dimensions(b));
    forall i | 0 <= i < |a| ensures a[i] == b[i] {
      assert a[i] in multiset(b);
      var j :| 0 <= j < |b| && b[j] == a[i];
      assert Dimensions(a)[i] == Dimensions(b)[i] && Dimensions(b)[j] == Dimensions(a)[i];
    }
  }

  lemma DimensionsCover(a: seq<Pair>, b: seq<Pair>, d: string)
    requires multiset(a) == multiset(b)
    ensures d in Dimensions(a) ==> d in Dimensions(b)
  {
    if d in Dimensions(a) {
      var i :| 0 <= i < |a| && a[i].dimension == d;
      assert a[i] in multiset(b);
      var j :| 0 <= j < |b| && b[j] == a[i];
      assert Dimensions(b)[j] == d;
    }
  }

  /** Two combinations have the same key exactly when they choose the same values, in whatever order. */
  lemma KeyIsTheSelection(a: seq<Pair>, b: seq<Pair>)
    requires DistinctDimensions(a) && DistinctDimensions(b)
    ensures CombinationKey(a) == CombinationKey(b) <==> multiset(a) == multiset(b)
  {
    if multiset(a) == multiset(b) {
      KeyAscends(a);
      KeyAscends(b);
      AscendingPairsUnique(CombinationKey(a), CombinationKey(b));
    }
  }

  // ----- potential combinations -----

  function Product(counts: seq<nat>): nat { if counts == [] then 1 else Product(counts[..|counts| - 1]) * counts[|counts| - 1] }

  predicate Positive(counts: seq<nat>) { forall i | 0 <= i < |counts| :: counts[i] >= 1 }

  lemma {:induction false} ProductGrows(counts: seq<nat>, i: nat)
    requires i <= |counts| && Positive(counts)
    ensures Product(counts[..i]) <= Product(counts)
    decreases |counts|
  {
    if i == |counts| {
      assert counts[..i] == counts;
    } else {
      var shorter := counts[..|counts| - 1];
      ProductGrows(shorter, i);
      assert shorter[..i] == counts[..i];
    }
  }

  /** No partial product is over the maximum. */
  predicate StaysWithin(counts: seq<nat>, maximum: nat) { forall k | 1 <= k <= |counts| :: Product(counts[..k]) <= maximum }

  /** The answer that the whole product would give. */
  predicate JudgedRight(counts: seq<nat>, maximum: nat) { StaysWithin(counts, maximum) <==> Product(counts) <= maximum }

  /** The counts in front of the first empty dimension. */
  function UpToZero(counts: seq<nat>): (r: seq<nat>)
    ensures Positive(r) && r <= counts && (|r| < |counts| ==> counts[|r|] == 0) && (r == counts <==> Positive(counts))
  {
    if counts == [] || counts[0] == 0 then [] else [counts[0]] + UpToZero(counts[1..])
  }

  lemma {:induction false} ProductAfterZero(counts: seq<nat>, z: nat, k: nat)
    requires z < k <= |counts| && counts[z] == 0
    ensures Product(counts[..k]) == 0
  {
    assert counts[..k][..k - 1] == counts[..k - 1];
    if z < k - 1 { ProductAfterZero(counts, z, k - 1); }
  }

  /** Only the dimensions in front of an empty one count. */
  lemma StaysWithinIff(counts: seq<nat>, maximum: nat)
    ensures StaysWithin(counts, maximum) <==> UpToZero(counts) == [] || Product(UpToZero(counts)) <= maximum
  {
    var n := |UpToZero(counts)|;
    assert UpToZero(counts) == counts[..n];
    forall k | 1 <= k <= |counts| ensures Product(counts[..k]) <= if k <= n then Product(counts[..n]) else 0 {
      if k <= n {
        ProductGrows(counts[..n], k);
        assert counts[..n][..k] == counts[..k];
      } else {
        ProductAfterZero(counts, n, k);
      }
    }
  }

  /** The early stop gives the right answer unless the dimensions in front of an empty one are too many already. */
  lemma JudgedRightIff(counts: seq<nat>, maximum: nat)
    requires maximum >= 1
    ensures JudgedRight(counts, maximum) <==> Positive(counts) || Product(UpToZero(counts)) <= maximum
  {
    StaysWithinIff(counts, maximum);
    if Positive(counts) {
      assert counts != [] ==> counts[..|counts|] == counts;
    } else {
      ProductAfterZero(counts, |UpToZero(counts)|, |counts|);
      assert counts[..|counts|] == counts;
    }
  }

  /** A structure of 101 values and an empty dimension has no combination at all and is refused as too large. */
  lemma EmptyDimensionMisjudged()
    ensures Product([101, 0]) == 0 && !StaysWithin([101, 0], 100)
  {
    assert [101, 0][..1] == [101] && [101][..0] == [];
    assert Product([101]) == 101;
  }

  lemma StaysWithinNext(counts: seq<nat>, maximum: nat, i: nat)
    requires i < |counts|
    ensures StaysWithin(counts[..i + 1], maximum) <==> StaysWithin(counts[..i], maximum) && Product(counts[..i + 1]) <= maximum
  {
    var longer, shorter := counts[..i + 1], counts[..i];
    assert longer[..i + 1] == longer;
    forall k | 1 <= k <= i ensures Product(longer[..k]) == Product(shorter[..k]) { assert longer[..k] == shorter[..k]; }
  }

  /** Stops at the first partial product over the maximum. */
  method CalculatePotentialCombinations(counts: seq<nat>, maximum: nat) returns (ok: bool, count: nat)
    ensures ok <==> StaysWithin(counts, maximum)
    ensures ok ==> count == Product(counts)
    ensures !ok ==> exists k | 1 <= k <= |counts| :: count == Product(counts[..k]) > maximum && StaysWithin(counts[..k - 1], maximum)
    ensures Positive(counts) && maximum >= 1 ==> (ok <==> Product(counts) <= maximum)
  {
    if maximum >= 1 { JudgedRightIff(counts, maximum); }
    count := 1;
    for i := 0 to |counts|
      invariant count == Product(counts[..i]) && StaysWithin(counts[..i], maximum)
    {
      assert counts[..i + 1][..i] == counts[..i];
      StaysWithinNext(counts, maximum, i);
      count := count * counts[i];
      if count > maximum { return false, count; }
    }
    assert counts[..|counts|] == counts;
    ok := true;
  }
}
