/** When the consumer's selector has dead ends: exactly when a value of an active SKU counts for another dimension. */
module SkuDeadEnds {
  import opened Basics
  import opened SkuCore
  import opened SkuDocument
  import opened SkuHistory
  import opened SkuSelector

  /** No shop that shows these SKUs, whatever it shows and sells, ever leads a customer into a dead end. */
  ghost predicate AlwaysContinues(d: Document) { forall proj, choices | Walked(d, proj, choices) :: Continues(d, proj, choices) }

  /** Whether the selector has dead ends is a matter of the document alone. */
  lemma NoDeadEndsIff(d: Document)
    requires DocInv(d) && LivePairs(d)
    ensures AlwaysContinues(d) <==> Owned(d)
  {
    if Owned(d) {
      forall proj, choices | Walked(d, proj, choices) ensures Continues(d, proj, choices) { NoDeadEnds(d, proj, choices); }
    } else {
      var q, k :| 0 <= q < |d.skus| && Active(d.skus[q]) && 0 <= k < |d.skus[q].pairs| && !OwnPair(d.dimensions, d.skus[q].pairs[k]);
      DeadEnd(d, q, k);
    }
  }

  // ----- the dead end -----

  /** A shop that shows and sells this one SKU. */
  function OnlySku(s: Sku): Projections { map[s.sequence := Projection(true, true, "unknown")] }

  predicate AmongValues(s: Sku, choices: seq<string>) { forall i | 0 <= i < |choices| :: HasPairValue(s, choices[i]) }

  lemma DeadEnd(d: Document, q: nat, k: nat)
    requires DocInv(d) && LivePairs(d) && SkuAt(d, q) && k < |d.skus[q].pairs| && !OwnPair(d.dimensions, d.skus[q].pairs[k])
    ensures !AlwaysContinues(d)
  {
    var proj := OnlySku(d.skus[q]);
    var i := OrphanedDimension(d, q, k);
    NothingChosen(d.skus[q].pairs);
    assert Promised(d, proj, [], q);
    var end := WalkOn(d, q, i, []);
    NeverSelected(d, q, i, end);
    assert Walked(d, proj, end) && !Continues(d, proj, end);
  }

  lemma NothingChosen(pairs: seq<Pair>)
    ensures Overlap(pairs, Chosen([])) == 0 && Chosen([]) == {}
  {
    assert Chosen([]) == {};
    NoHits(Values(pairs));
  }

  lemma {:induction false} NoHits(vs: seq<string>)
    ensures Hits(vs, {}) == 0
  {
    if vs != [] { NoHits(vs[1..]); }
  }

  /** The owner of a live value is the last dimension that lists it, so never one before its own. */
  lemma {:induction false} OwnerIsLater(dims: seq<Dimension>, i: nat, v: string) returns (o: nat)
    requires i < |dims| && LiveValue(dims[i], v)
    ensures i <= o < |dims| && OwnerOf(dims, v) == Some(dims[o].id)
  {
    var n := |dims| - 1;
    if LiveValue(dims[n], v) { o := n; } else { o := OwnerIsLater(dims[..n], i, v); }
  }

  /** The pair of the SKU for a dimension. */
  predicate UsesIn(d: Document, q: nat, i: nat, k: nat)
    requires q < |d.skus| && i < |d.dimensions|
  {
    k < |d.skus[q].pairs| && d.skus[q].pairs[k].dimension == d.dimensions[i].id && LiveValue(d.dimensions[i], d.skus[q].pairs[k].value)
  }

  lemma PairIn(d: Document, q: nat, k: nat) returns (i: nat)
    requires DocInv(d) && LivePairs(d) && SkuAt(d, q) && k < |d.skus[q].pairs|
    ensures i < |d.dimensions| && UsesIn(d, q, i, k)
  {
    assert LivePair(d.dimensions, d.skus[q].pairs[k]);
    i :| 0 <= i < |d.dimensions| && d.dimensions[i].id == d.skus[q].pairs[k].dimension && LiveValue(d.dimensions[i], d.skus[q].pairs[k].value);
  }

  /** None of the SKU's values counts for this dimension. */
  predicate Orphaned(d: Document, q: nat, i: nat)
    requires q < |d.skus| && i < |d.dimensions|
  {
    forall k | 0 <= k < |d.skus[q].pairs| :: OwnerOf(d.dimensions, d.skus[q].pairs[k].value) != Some(d.dimensions[i].id)
  }

  /** The first dimension whose value counts elsewhere is left with none: later values only count later. */
  lemma {:induction false} OrphanedDimension(d: Document, q: nat, k: nat) returns (i: nat)
    requires DocInv(d) && LivePairs(d) && SkuAt(d, q) && k < |d.skus[q].pairs| && !OwnPair(d.dimensions, d.skus[q].pairs[k])
    ensures i < |d.dimensions| && Orphaned(d, q, i)
    decreases IndexIn(d, q, k)
  {
    i := PairIn(d, q, k);
    IndexIs(d, q, k, i);
    if !Orphaned(d, q, i) {
      var l :| 0 <= l < |d.skus[q].pairs| && OwnerOf(d.dimensions, d.skus[q].pairs[l].value) == Some(d.dimensions[i].id);
      var j := PairIn(d, q, l);
      IndexIs(d, q, l, j);
      EarlierCulprit(d, q, k, i, l, j);
      i := OrphanedDimension(d, q, l);
    }
  }

  ghost function IndexIn(d: Document, q: nat, k: nat): nat
    requires DocInv(d) && LivePairs(d) && SkuAt(d, q) && k < |d.skus[q].pairs|
  {
    assert LivePair(d.dimensions, d.skus[q].pairs[k]);
    assert exists i: nat :: i < |d.dimensions| && UsesIn(d, q, i, k) by { var i := PairIn(d, q, k); }
    var i: nat :| i < |d.dimensions| && UsesIn(d, q, i, k);
    i
  }

  lemma IndexIs(d: Document, q: nat, k: nat, i: nat)
    requires DocInv(d) && LivePairs(d) && SkuAt(d, q) && k < |d.skus[q].pairs| && i < |d.dimensions| && UsesIn(d, q, i, k)
    ensures IndexIn(d, q, k) == i
  {
    assert SkuFits(d, d.skus[q]);
    CoversEvery(d.skus[q].pairs, d.dimensions);
    SameId(d.dimensions, IndexIn(d, q, k), i);
  }

  lemma EarlierCulprit(d: Document, q: nat, k: nat, i: nat, l: nat, j: nat)
    requires DocInv(d) && LivePairs(d) && SkuAt(d, q) && i < |d.dimensions| && j < |d.dimensions|
    requires UsesIn(d, q, i, k) && !OwnPair(d.dimensions, d.skus[q].pairs[k])
    requires UsesIn(d, q, j, l) && OwnerOf(d.dimensions, d.skus[q].pairs[l].value) == Some(d.dimensions[i].id)
    ensures j < i && !OwnPair(d.dimensions, d.skus[q].pairs[l])
  {
    assert SkuFits(d, d.skus[q]);
    CoversEvery(d.skus[q].pairs, d.dimensions);
    var o := OwnerIsLater(d.dimensions, j, d.skus[q].pairs[l].value);
    SameId(d.dimensions, o, i);
    assert j == i ==> k == l;
  }

  lemma NeverSelected(d: Document, q: nat, i: nat, choices: seq<string>)
    requires q < |d.skus| && i < |d.dimensions| && Orphaned(d, q, i) && AmongValues(d.skus[q], choices)
    ensures Unselected(d, choices, d.dimensions[i].id)
  {
    forall j | 0 <= j < |choices| ensures OwnerOf(d.dimensions, choices[j]) != Some(d.dimensions[i].id) {
      assert HasPairValue(d.skus[q], choices[j]);
      var k :| 0 <= k < |d.skus[q].pairs| && d.skus[q].pairs[k].value == choices[j];
    }
  }

  /** In that shop only values of the SKU can be chosen. */
  lemma OnlyItsValues(d: Document, q: nat, choices: seq<string>, v: string)
    requires DocInv(d) && SkuAt(d, q) && OpenChoice(d, OnlySku(d.skus[q]), choices, v)
    ensures HasPairValue(d.skus[q], v) && v !in Chosen(choices)
  {
    var proj := OnlySku(d.skus[q]);
    SelectableMeansReachable(d, proj, choices, v);
    var i :| 0 <= i < |d.skus| && Candidate(d.skus[i], proj, choices) && HasPairValue(d.skus[i], v) && Buyable(d.skus[i], proj);
    assert d.skus[i].sequence == d.skus[q].sequence;
    if i != q { DistinctAt(d.skus, i, q); }
  }

  ghost function ValuesLeft(s: Sku, choices: seq<string>): set<string> { Elements(Values(s.pairs)) - Chosen(choices) }

  /** Taking options of the dimension until it has none left. */
  lemma {:induction false} WalkOn(d: Document, q: nat, i: nat, choices: seq<string>) returns (end: seq<string>)
    requires DocInv(d) && SkuAt(d, q) && i < |d.dimensions|
    requires Path(d, OnlySku(d.skus[q]), choices) && AmongValues(d.skus[q], choices)
    ensures Path(d, OnlySku(d.skus[q]), end) && AmongValues(d.skus[q], end)
    ensures !HasOption(d, OnlySku(d.skus[q]), end, d.dimensions[i])
    decreases ValuesLeft(d.skus[q], choices)
  {
    var proj := OnlySku(d.skus[q]);
    end := choices;
    if HasOption(d, proj, choices, d.dimensions[i]) {
      var j :| 0 <= j < |d.dimensions[i].values| && OpenChoice(d, proj, choices, d.dimensions[i].values[j].id);
      var v := d.dimensions[i].values[j].id;
      OnlyItsValues(d, q, choices, v);
      PathGrows(d, proj, choices, v);
      ChosenMore(choices, v);
      ValueIsElement(d.skus[q], v);
      end := WalkOn(d, q, i, choices + [v]);
    }
  }

  lemma ValueIsElement(s: Sku, v: string)
    requires HasPairValue(s, v)
    ensures v in Elements(Values(s.pairs))
  {
    ElementsOf(Values(s.pairs));
    var k :| 0 <= k < |s.pairs| && s.pairs[k].value == v;
    assert Values(s.pairs)[k] == v;
  }

  lemma PathGrows(d: Document, proj: Projections, choices: seq<string>, v: string)
    requires Path(d, proj, choices) && OpenChoice(d, proj, choices, v)
    ensures Path(d, proj, choices + [v])
  {
    forall i | 0 <= i <= |choices| ensures OpenAt(d, proj, choices + [v], i) {
      if i < |choices| {
        assert OpenAt(d, proj, choices, i) && (choices + [v])[..i] == choices[..i];
      } else {
        assert (choices + [v])[..i] == choices;
      }
    }
  }
}
