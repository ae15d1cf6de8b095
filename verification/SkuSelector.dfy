/** The consumer's selector: which options are open, which SKU a selection means, and why no choice is a dead end. */
module SkuSelector {
  import opened Basics
  import opened SkuCore
  import opened SkuDocument
  import opened SkuHistory

  datatype Projection = Projection(visible: bool, selectable: bool, availability: string)
  type Projections = map<nat, Projection>

  datatype OptionState = Selected | Selectable | OutOfStock | Impossible | Unavailable
  datatype OptionView = OptionView(value: string, state: OptionState)
  datatype DimensionView = DimensionView(dimension: string, options: seq<OptionView>)
  datatype Selection = Selection(dimensions: seq<DimensionView>, sku: Option<nat>)

  // ----- which values can be chosen -----

  predicate LiveValue(dim: Dimension, v: string) { !dim.archived && exists j :: 0 <= j < |dim.values| && dim.values[j] == SpecValue(v, false) }

  /** The dimension a value belongs to; of several the last one listed. */
  function OwnerOf(dims: seq<Dimension>, v: string): Option<string> {
    if dims == [] then None
    else if LiveValue(dims[|dims| - 1], v) then Some(dims[|dims| - 1].id)
    else OwnerOf(dims[..|dims| - 1], v)
  }

  /** Known values, no two of one dimension. */
  predicate ValidSelection(dims: seq<Dimension>, ids: seq<string>) {
    && (forall i | 0 <= i < |ids| :: OwnerOf(dims, ids[i]).Some?)
    && forall i, j | 0 <= i < j < |ids| :: OwnerOf(dims, ids[i]) != OwnerOf(dims, ids[j])
  }

  // ----- which SKUs a selection leaves -----

  predicate Active(s: Sku) { !s.archived && s.config.status == Enabled }

  predicate Shown(s: Sku, proj: Projections) { Active(s) && s.sequence in proj && proj[s.sequence].visible }

  predicate Buyable(s: Sku, proj: Projections) { s.sequence in proj && proj[s.sequence].selectable }

  function Chosen(ids: seq<string>): set<string> { set i | 0 <= i < |ids| :: ids[i] }

  function Values(pairs: seq<Pair>): (vs: seq<string>)
    ensures |vs| == |pairs| && forall i | 0 <= i < |pairs| :: vs[i] == pairs[i].value
  {
    seq(|pairs|, i requires 0 <= i < |pairs| => pairs[i].value)
  }

  function Hits(vs: seq<string>, chosen: set<string>): nat {
    if vs == [] then 0 else (if vs[0] in chosen then 1 else 0) + Hits(vs[1..], chosen)
  }

  /** How many of a SKU's values are chosen. */
  function Overlap(pairs: seq<Pair>, chosen: set<string>): nat { Hits(Values(pairs), chosen) }

  predicate Candidate(s: Sku, proj: Projections, ids: seq<string>) { Shown(s, proj) && Overlap(s.pairs, Chosen(ids)) == |Chosen(ids)| }

  predicate Exact(s: Sku, proj: Projections, ids: seq<string>) { Candidate(s, proj, ids) && |s.pairs| == |Chosen(ids)| && Buyable(s, proj) }

  function ExactSkus(skus: seq<Sku>, proj: Projections, ids: seq<string>): seq<Sku> {
    if skus == [] then [] else (if Exact(skus[0], proj, ids) then [skus[0]] else []) + ExactSkus(skus[1..], proj, ids)
  }

  function SelectedSku(d: Document, proj: Projections, ids: seq<string>): Option<nat> {
    var exact := ExactSkus(d.skus, proj, ids);
    if |exact| == 1 then Some(exact[0].sequence) else None
  }

  predicate HasPairValue(s: Sku, v: string) { exists k :: 0 <= k < |s.pairs| && s.pairs[k].value == v }

  /** Some candidate has the value and can be bought. */
  predicate Reachable(d: Document, proj: Projections, ids: seq<string>, v: string) {
    exists i :: 0 <= i < |d.skus| && Candidate(d.skus[i], proj, ids) && HasPairValue(d.skus[i], v) && Buyable(d.skus[i], proj)
  }

  function StateOf(d: Document, proj: Projections, ids: seq<string>, v: string): OptionState {
    if v in Chosen(ids) then Selected
    else if Reachable(d, proj, ids, v) then Selectable
    else if exists i :: 0 <= i < |d.skus| && Candidate(d.skus[i], proj, ids) && HasPairValue(d.skus[i], v)
                        && d.skus[i].sequence in proj && proj[d.skus[i].sequence].availability == "out-of-stock" then OutOfStock
    else if forall i | 0 <= i < |d.skus| && Candidate(d.skus[i], proj, ids) :: !HasPairValue(d.skus[i], v) then Impossible
    else Unavailable
  }

  function Options(d: Document, proj: Projections, ids: seq<string>, values: seq<SpecValue>): seq<OptionView> {
    if values == [] then []
    else (if values[0].archived then [] else [OptionView(values[0].id, StateOf(d, proj, ids, values[0].id))]) + Options(d, proj, ids, values[1..])
  }

  function Views(d: Document, proj: Projections, ids: seq<string>, dims: seq<Dimension>): seq<DimensionView> {
    if dims == [] then []
    else (if dims[0].archived then [] else [DimensionView(dims[0].id, Options(d, proj, ids, dims[0].values))]) + Views(d, proj, ids, dims[1..])
  }

  // ----- a combination that covers all dimensions names each of them once -----

  function Elements(s: seq<string>): set<string> { if s == [] then {} else {s[0]} + Elements(s[1..]) }

  lemma {:induction false} ElementsOf(s: seq<string>)
    ensures forall x :: x in Elements(s) <==> x in s
    ensures |Elements(s)| <= |s|
    ensures |Elements(s)| == |s| <==> forall i, j | 0 <= i < j < |s| :: s[i] != s[j]
  {
    if s != [] {
      ElementsOf(s[1..]);
      assert s == [s[0]] + s[1..];
      if s[0] in s[1..] {
        assert Elements(s) == Elements(s[1..]);
        var k :| 0 <= k < |s| - 1 && s[1..][k] == s[0];
        assert s[0] == s[k + 1];
      } else {
        assert |Elements(s)| == 1 + |Elements(s[1..])|;
        HeadIsNew(s);
      }
    }
  }

  lemma HeadIsNew(s: seq<string>)
    requires s != [] && s[0] !in s[1..]
    ensures (forall i, j | 0 <= i < j < |s| :: s[i] != s[j]) <==> forall i, j | 0 <= i < j < |s| - 1 :: s[1..][i] != s[1..][j]
  {
    forall j | 0 < j < |s| ensures s[0] != s[j] { assert s[j] == s[1..][j - 1]; }
    if forall i, j | 0 <= i < j < |s| - 1 :: s[1..][i] != s[1..][j] {
      forall i, j | 0 < i < j < |s| ensures s[i] != s[j] { assert s[1..][i - 1] != s[1..][j - 1]; }
    }
  }

  function DimensionIds(dims: seq<Dimension>): (ids: seq<string>)
    ensures |ids| == |dims| && forall i | 0 <= i < |dims| :: ids[i] == dims[i].id
  {
    seq(|dims|, i requires 0 <= i < |dims| => dims[i].id)
  }

  lemma SubsetOfEqualSize(a: set<string>, b: set<string>)
    requires a <= b && |a| >= |b|
    ensures a == b
  {
    assert a + (b - a) == b;
    assert |b| == |a| + |b - a|;
    assert b - a == {};
  }

  lemma AllInside(vs: set<string>, chosen: set<string>)
    ensures |vs * chosen| == |chosen| <==> chosen <= vs
  {
    if |vs * chosen| == |chosen| { SubsetOfEqualSize(vs * chosen, chosen); }
    if chosen <= vs { assert vs * chosen == chosen; }
  }

  lemma CoversEvery(pairs: seq<Pair>, dims: seq<Dimension>)
    requires Covers(pairs, dims)
    ensures forall i, j | 0 <= i < j < |dims| :: dims[i].id != dims[j].id
    ensures forall i | 0 <= i < |dims| :: exists k :: 0 <= k < |pairs| && pairs[k].dimension == dims[i].id
  {
    var used, ids := Dimensions(pairs), DimensionIds(dims);
    ElementsOf(used);
    ElementsOf(ids);
    assert |Elements(used)| == |pairs|;
    forall x | x in Elements(used) ensures x in Elements(ids) {
      var k :| 0 <= k < |pairs| && pairs[k].dimension == x;
      assert InDimensions(pairs[k], dims);
      var dim := FindDimension(dims, x).value;
      var i :| 0 <= i < |dims| && dims[i] == dim;
      assert ids[i] == x;
    }
    SubsetOfEqualSize(Elements(used), Elements(ids));
    assert |ids| == |Elements(ids)|;
    forall i, j | 0 <= i < j < |dims| ensures dims[i].id != dims[j].id { assert ids[i] != ids[j]; }
    forall i | 0 <= i < |dims| ensures exists k :: 0 <= k < |pairs| && pairs[k].dimension == dims[i].id {
      assert ids[i] in Elements(used);
      var k :| 0 <= k < |used| && used[k] == ids[i];
      assert pairs[k].dimension == dims[i].id;
    }
  }

  // ----- no dead ends -----

  /** A value id names one live value. */
  ghost predicate UniqueValues(dims: seq<Dimension>) {
    forall i, j, v: string | 0 <= i < |dims| && 0 <= j < |dims| && LiveValue(dims[i], v) && LiveValue(dims[j], v) :: i == j
  }

  predicate LivePair(dims: seq<Dimension>, p: Pair) { exists i :: 0 <= i < |dims| && dims[i].id == p.dimension && LiveValue(dims[i], p.value) }

  /** The active SKUs use only live dimensions and values. */
  predicate LivePairs(d: Document) {
    forall i, k | 0 <= i < |d.skus| && Active(d.skus[i]) && 0 <= k < |d.skus[i].pairs| :: LivePair(d.dimensions, d.skus[i].pairs[k])
  }

  predicate OwnPair(dims: seq<Dimension>, p: Pair) { OwnerOf(dims, p.value) == Some(p.dimension) }

  /** Every value of an active SKU counts for the dimension the SKU uses it in. */
  predicate Owned(d: Document) {
    forall i, k | 0 <= i < |d.skus| && Active(d.skus[i]) && 0 <= k < |d.skus[i].pairs| :: OwnPair(d.dimensions, d.skus[i].pairs[k])
  }

  ghost predicate Sellable(d: Document) { DocInv(d) && LivePairs(d) && Owned(d) }

  lemma {:induction false} OwnerIsLive(dims: seq<Dimension>, i: nat, v: string)
    requires UniqueValues(dims) && i < |dims| && LiveValue(dims[i], v)
    ensures OwnerOf(dims, v) == Some(dims[i].id)
  {
    var n := |dims| - 1;
    if i < n {
      assert dims[..n][i] == dims[i];
      OwnerIsLive(dims[..n], i, v);
    }
  }

  predicate SkuAt(d: Document, i: int) { 0 <= i < |d.skus| && Active(d.skus[i]) }

  lemma PairOwner(d: Document, i: int, k: int)
    requires Sellable(d) && SkuAt(d, i) && 0 <= k < |d.skus[i].pairs|
    ensures OwnerOf(d.dimensions, d.skus[i].pairs[k].value) == Some(d.skus[i].pairs[k].dimension)
  {
    assert OwnPair(d.dimensions, d.skus[i].pairs[k]);
  }

  /** Where no two live values share an id, every value is owned by its own dimension. */
  lemma UniqueValuesAreOwned(d: Document)
    requires UniqueValues(d.dimensions) && LivePairs(d)
    ensures Owned(d)
  {
    forall i, k | 0 <= i < |d.skus| && Active(d.skus[i]) && 0 <= k < |d.skus[i].pairs| ensures OwnPair(d.dimensions, d.skus[i].pairs[k]) {
      var p := d.skus[i].pairs[k];
      assert LivePair(d.dimensions, p);
      var j :| 0 <= j < |d.dimensions| && d.dimensions[j].id == p.dimension && LiveValue(d.dimensions[j], p.value);
      OwnerIsLive(d.dimensions, j, p.value);
    }
  }

  /** The values of a SKU are distinct: they belong to different dimensions. */
  lemma ValuesDistinct(d: Document, i: int)
    requires Sellable(d) && SkuAt(d, i)
    ensures |Elements(Values(d.skus[i].pairs))| == |d.skus[i].pairs|
    ensures forall v :: v in Elements(Values(d.skus[i].pairs)) <==> HasPairValue(d.skus[i], v)
  {
    var pairs := d.skus[i].pairs;
    forall k, l | 0 <= k < l < |pairs| ensures Values(pairs)[k] != Values(pairs)[l] {
      PairOwner(d, i, k);
      PairOwner(d, i, l);
    }
    ElementsOf(Values(pairs));
    forall v ensures v in Elements(Values(pairs)) <==> HasPairValue(d.skus[i], v) {
      if HasPairValue(d.skus[i], v) {
        var k :| 0 <= k < |pairs| && pairs[k].value == v;
        assert Values(pairs)[k] == v;
      }
    }
  }

  lemma HeadIsExtra(vs: seq<string>)
    requires vs != [] && |Elements(vs)| == |vs|
    ensures vs[0] !in Elements(vs[1..]) && |Elements(vs[1..])| == |vs[1..]|
  {
    ElementsOf(vs);
    ElementsOf(vs[1..]);
    assert forall k | 0 <= k < |vs| - 1 :: vs[1..][k] == vs[k + 1];
  }

  lemma HitsSplit(head: string, tail: set<string>, chosen: set<string>)
    requires head !in tail
    ensures |({head} + tail) * chosen| == (if head in chosen then 1 else 0) + |tail * chosen|
  {
    assert ({head} + tail) * chosen == (if head in chosen then {head} else {}) + tail * chosen;
  }

  lemma {:induction false} HitsCount(vs: seq<string>, chosen: set<string>)
    requires |Elements(vs)| == |vs|
    ensures Hits(vs, chosen) == |Elements(vs) * chosen|
  {
    if vs == [] {
      assert Elements(vs) * chosen == {};
    } else {
      HeadIsExtra(vs);
      HitsCount(vs[1..], chosen);
      HitsSplit(vs[0], Elements(vs[1..]), chosen);
    }
  }

  lemma CandidateIff(d: Document, proj: Projections, ids: seq<string>, i: int)
    requires Sellable(d) && SkuAt(d, i)
    ensures Candidate(d.skus[i], proj, ids) <==> Shown(d.skus[i], proj) && forall v | v in Chosen(ids) :: HasPairValue(d.skus[i], v)
  {
    var pairs, chosen := d.skus[i].pairs, Chosen(ids);
    ValuesDistinct(d, i);
    HitsCount(Values(pairs), chosen);
    AllInside(Elements(Values(pairs)), chosen);
  }

  predicate Promised(d: Document, proj: Projections, ids: seq<string>, i: int) {
    0 <= i < |d.skus| && Candidate(d.skus[i], proj, ids) && Buyable(d.skus[i], proj)
  }

  /** Some SKU that can be bought still matches. */
  predicate Promising(d: Document, proj: Projections, ids: seq<string>) { exists i :: 0 <= i < |d.skus| && Promised(d, proj, ids, i) }

  predicate Unselected(d: Document, ids: seq<string>, dimension: string) {
    forall j | 0 <= j < |ids| :: OwnerOf(d.dimensions, ids[j]) != Some(dimension)
  }

  predicate OpenChoice(d: Document, proj: Projections, ids: seq<string>, v: string) {
    && OwnerOf(d.dimensions, v).Some? && Unselected(d, ids, OwnerOf(d.dimensions, v).value)
    && StateOf(d, proj, ids, v) == Selectable
  }

  lemma SelectableMeansReachable(d: Document, proj: Projections, ids: seq<string>, v: string)
    ensures StateOf(d, proj, ids, v) == Selectable <==> v !in Chosen(ids) && Reachable(d, proj, ids, v)
  {
  }

  lemma ChoiceKeepsPromise(d: Document, proj: Projections, ids: seq<string>, v: string)
    requires Sellable(d) && ValidSelection(d.dimensions, ids) && Reachable(d, proj, ids, v)
    requires OwnerOf(d.dimensions, v).Some? && Unselected(d, ids, OwnerOf(d.dimensions, v).value)
    ensures ValidSelection(d.dimensions, ids + [v]) && Promising(d, proj, ids + [v])
  {
    SelectionGrows(d.dimensions, ids, v);
    var i :| 0 <= i < |d.skus| && Candidate(d.skus[i], proj, ids) && HasPairValue(d.skus[i], v) && Buyable(d.skus[i], proj);
    PromiseGrows(d, proj, ids, v, i);
  }

  lemma PromiseGrows(d: Document, proj: Projections, ids: seq<string>, v: string, i: int)
    requires Sellable(d) && Promised(d, proj, ids, i) && HasPairValue(d.skus[i], v)
    ensures Promised(d, proj, ids + [v], i)
  {
    GrownCandidate(d, proj, ids, v, i);
  }

  lemma SelectionGrows(dims: seq<Dimension>, ids: seq<string>, v: string)
    requires ValidSelection(dims, ids) && OwnerOf(dims, v).Some? && forall j | 0 <= j < |ids| :: OwnerOf(dims, ids[j]) != OwnerOf(dims, v)
    ensures ValidSelection(dims, ids + [v])
  {
  }

  lemma ChosenMore(ids: seq<string>, v: string)
    ensures Chosen(ids + [v]) == Chosen(ids) + {v}
  {
    forall w ensures w in Chosen(ids + [v]) <==> w in Chosen(ids) || w == v {
      if w in Chosen(ids) {
        var j :| 0 <= j < |ids| && ids[j] == w;
        assert (ids + [v])[j] == w;
      }
      assert (ids + [v])[|ids|] == v;
    }
  }

  lemma GrownCandidate(d: Document, proj: Projections, ids: seq<string>, v: string, i: int)
    requires Sellable(d) && SkuAt(d, i)
    ensures Candidate(d.skus[i], proj, ids + [v]) <==> Candidate(d.skus[i], proj, ids) && HasPairValue(d.skus[i], v)
  {
    CandidateIff(d, proj, ids, i);
    CandidateIff(d, proj, ids + [v], i);
    ChosenMore(ids, v);
  }

  /** Some SKU that is shown still matches. */
  predicate Matching(d: Document, proj: Projections, ids: seq<string>) { exists i :: 0 <= i < |d.skus| && Candidate(d.skus[i], proj, ids) }

  /** Some SKU that is out of stock still matches. */
  predicate SoldOut(d: Document, proj: Projections, ids: seq<string>) {
    exists i :: 0 <= i < |d.skus| && Candidate(d.skus[i], proj, ids) && proj[d.skus[i].sequence].availability == "out-of-stock"
  }

  /** The state of an option not yet chosen tells what choosing it would leave: something to buy, something
      sold out, nothing at all, or something that cannot be had for another reason. */
  lemma OptionStatesLookAhead(d: Document, proj: Projections, ids: seq<string>, v: string)
    requires Sellable(d) && v !in Chosen(ids)
    ensures StateOf(d, proj, ids, v) == Selectable <==> Promising(d, proj, ids + [v])
    ensures StateOf(d, proj, ids, v) == OutOfStock <==> !Promising(d, proj, ids + [v]) && SoldOut(d, proj, ids + [v])
    ensures StateOf(d, proj, ids, v) == Impossible <==> !Matching(d, proj, ids + [v])
  {
    NextCandidates(d, proj, ids, v);
    if i :| 0 <= i < |d.skus| && Candidate(d.skus[i], proj, ids) && HasPairValue(d.skus[i], v) && Buyable(d.skus[i], proj) {
      assert Promised(d, proj, ids + [v], i);
    }
    if i :| 0 <= i < |d.skus| && Promised(d, proj, ids + [v], i) { assert Reachable(d, proj, ids, v); }
  }

  lemma NextCandidates(d: Document, proj: Projections, ids: seq<string>, v: string)
    requires Sellable(d)
    ensures forall i | 0 <= i < |d.skus| ::
              Candidate(d.skus[i], proj, ids + [v]) <==> Candidate(d.skus[i], proj, ids) && HasPairValue(d.skus[i], v)
  {
    forall i | 0 <= i < |d.skus|
      ensures Candidate(d.skus[i], proj, ids + [v]) <==> Candidate(d.skus[i], proj, ids) && HasPairValue(d.skus[i], v)
    {
      if Active(d.skus[i]) { GrownCandidate(d, proj, ids, v, i); }
    }
  }

  lemma SameId(dims: seq<Dimension>, l: int, i: int)
    requires (forall k, m | 0 <= k < m < |dims| :: dims[k].id != dims[m].id) && 0 <= l < |dims| && 0 <= i < |dims| && dims[l].id == dims[i].id
    ensures l == i
  {
  }

  /** An unselected live dimension has an option that can be chosen. */
  lemma AnOptionRemains(d: Document, proj: Projections, ids: seq<string>, i: int, q: int) returns (j: nat)
    requires Sellable(d) && Promised(d, proj, ids, q)
    requires 0 <= i < |d.dimensions| && Unselected(d, ids, d.dimensions[i].id)
    ensures j < |d.dimensions[i].values| && !d.dimensions[i].archived && !d.dimensions[i].values[j].archived
    ensures OwnerOf(d.dimensions, d.dimensions[i].values[j].id) == Some(d.dimensions[i].id)
    ensures d.dimensions[i].values[j].id !in Chosen(ids) && Reachable(d, proj, ids, d.dimensions[i].values[j].id)
  {
    var k := PairForDimension(d, q, i);
    j :| 0 <= j < |d.dimensions[i].values| && d.dimensions[i].values[j] == SpecValue(d.skus[q].pairs[k].value, false);
    PairOwner(d, q, k);
    PromisedValueIsOpen(d, proj, ids, q, k);
  }

  /** An active SKU uses a live value of every dimension. */
  lemma PairForDimension(d: Document, q: int, i: int) returns (k: nat)
    requires DocInv(d) && LivePairs(d) && SkuAt(d, q) && 0 <= i < |d.dimensions|
    ensures k < |d.skus[q].pairs| && d.skus[q].pairs[k].dimension == d.dimensions[i].id
    ensures LiveValue(d.dimensions[i], d.skus[q].pairs[k].value)
  {
    var pairs := d.skus[q].pairs;
    assert SkuFits(d, d.skus[q]);
    CoversEvery(pairs, d.dimensions);
    k :| 0 <= k < |pairs| && pairs[k].dimension == d.dimensions[i].id;
    assert LivePair(d.dimensions, pairs[k]);
    var l :| 0 <= l < |d.dimensions| && d.dimensions[l].id == pairs[k].dimension && LiveValue(d.dimensions[l], pairs[k].value);
    SameId(d.dimensions, l, i);
  }

  lemma PromisedValueIsOpen(d: Document, proj: Projections, ids: seq<string>, q: int, k: int)
    requires Promised(d, proj, ids, q) && 0 <= k < |d.skus[q].pairs|
    requires OwnerOf(d.dimensions, d.skus[q].pairs[k].value).Some?
    requires Unselected(d, ids, OwnerOf(d.dimensions, d.skus[q].pairs[k].value).value)
    ensures d.skus[q].pairs[k].value !in Chosen(ids) && Reachable(d, proj, ids, d.skus[q].pairs[k].value)
  {
    assert HasPairValue(d.skus[q], d.skus[q].pairs[k].value);
  }

  /** Every live dimension has been chosen from. */
  predicate FullSelection(d: Document, ids: seq<string>) {
    forall i | 0 <= i < |d.dimensions| && !d.dimensions[i].archived :: !Unselected(d, ids, d.dimensions[i].id)
  }

  /** Under a full selection a matching SKU has exactly the chosen values. */
  lemma FullMatch(d: Document, proj: Projections, ids: seq<string>, i: int, v: string)
    requires Sellable(d) && SkuAt(d, i) && Candidate(d.skus[i], proj, ids) && FullSelection(d, ids)
    ensures v in Chosen(ids) <==> HasPairValue(d.skus[i], v)
  {
    CandidateIff(d, proj, ids, i);
    if HasPairValue(d.skus[i], v) {
      var k :| 0 <= k < |d.skus[i].pairs| && d.skus[i].pairs[k].value == v;
      ChosenHere(d, proj, ids, i, k);
    }
  }

  lemma ChosenHere(d: Document, proj: Projections, ids: seq<string>, i: int, k: int)
    requires Sellable(d) && SkuAt(d, i) && Candidate(d.skus[i], proj, ids) && FullSelection(d, ids) && 0 <= k < |d.skus[i].pairs|
    ensures d.skus[i].pairs[k].value in Chosen(ids)
  {
    var p := d.skus[i].pairs[k];
    assert LivePair(d.dimensions, p);
    var l :| 0 <= l < |d.dimensions| && d.dimensions[l].id == p.dimension && LiveValue(d.dimensions[l], p.value);
    assert !Unselected(d, ids, d.dimensions[l].id);
    var j :| 0 <= j < |ids| && OwnerOf(d.dimensions, ids[j]) == Some(p.dimension);
    CandidateIff(d, proj, ids, i);
    assert ids[j] in Chosen(ids);
    var m :| 0 <= m < |d.skus[i].pairs| && d.skus[i].pairs[m].value == ids[j];
    PairOwner(d, i, m);
    assert m == k by { SameDimensionSamePair(d.skus[i].pairs, m, k); }
  }

  lemma SameDimensionSamePair(pairs: seq<Pair>, m: int, k: int)
    requires DistinctDimensions(pairs) && 0 <= m < |pairs| && 0 <= k < |pairs| && pairs[m].dimension == pairs[k].dimension
    ensures m == k
  {
  }

  /** At most one SKU matches a full selection. */
  lemma OneMatch(d: Document, proj: Projections, ids: seq<string>, i: int, j: int)
    requires Sellable(d) && FullSelection(d, ids)
    requires SkuAt(d, i) && Candidate(d.skus[i], proj, ids) && SkuAt(d, j) && Candidate(d.skus[j], proj, ids)
    ensures i == j
  {
    var a, b := d.skus[i].pairs, d.skus[j].pairs;
    SamePairs(d, proj, ids, i, j);
    SamePairs(d, proj, ids, j, i);
    SameBag(a, b);
    KeyIsTheSelection(a, b);
    assert SkuFits(d, d.skus[i]) && SkuFits(d, d.skus[j]);
    DistinctAt(d.skus, i, j);
  }

  lemma SamePairs(d: Document, proj: Projections, ids: seq<string>, i: int, j: int)
    requires Sellable(d) && FullSelection(d, ids)
    requires SkuAt(d, i) && Candidate(d.skus[i], proj, ids) && SkuAt(d, j) && Candidate(d.skus[j], proj, ids)
    ensures forall p | p in d.skus[i].pairs :: p in d.skus[j].pairs
  {
    forall p | p in d.skus[i].pairs ensures p in d.skus[j].pairs {
      var k :| 0 <= k < |d.skus[i].pairs| && d.skus[i].pairs[k] == p;
      FullMatch(d, proj, ids, i, p.value);
      FullMatch(d, proj, ids, j, p.value);
      var l :| 0 <= l < |d.skus[j].pairs| && d.skus[j].pairs[l].value == p.value;
      PairOwner(d, i, k);
      PairOwner(d, j, l);
      assert d.skus[j].pairs[l] == p;
    }
  }

  lemma {:induction false} OnceEach(a: seq<Pair>, p: Pair)
    requires DistinctDimensions(a)
    ensures multiset(a)[p] == if p in a then 1 else 0
  {
    if a != [] {
      assert a == [a[0]] + a[1..];
      OnceEach(a[1..], p);
      HeadIsAlone(a);
    }
  }

  lemma HeadIsAlone(a: seq<Pair>)
    requires a != [] && DistinctDimensions(a)
    ensures a[0] !in a[1..]
  {
    forall k | 0 <= k < |a[1..]| ensures a[1..][k] != a[0] { assert a[k + 1].dimension != a[0].dimension; }
  }

  lemma SameBag(a: seq<Pair>, b: seq<Pair>)
    requires DistinctDimensions(a) && DistinctDimensions(b)
    requires (forall p | p in a :: p in b) && forall p | p in b :: p in a
    ensures multiset(a) == multiset(b)
  {
    forall p ensures multiset(a)[p] == multiset(b)[p] {
      OnceEach(a, p);
      OnceEach(b, p);
    }
  }

  lemma {:induction false} ExactMembers(skus: seq<Sku>, proj: Projections, ids: seq<string>)
    ensures forall s :: s in ExactSkus(skus, proj, ids) <==> s in skus && Exact(s, proj, ids)
  {
    if skus != [] { ExactMembers(skus[1..], proj, ids); }
  }

  lemma {:induction false} ExactOnce(skus: seq<Sku>, proj: Projections, ids: seq<string>, q: int)
    requires 0 <= q < |skus| && Exact(skus[q], proj, ids)
    requires forall i | 0 <= i < |skus| && Exact(skus[i], proj, ids) :: i == q
    ensures ExactSkus(skus, proj, ids) == [skus[q]]
  {
    if q == 0 {
      ExactMembers(skus[1..], proj, ids);
      NoneExact(skus[1..], proj, ids);
    } else {
      assert forall i | 0 <= i < |skus| - 1 && Exact(skus[1..][i], proj, ids) :: i + 1 == q by {
        forall i | 0 <= i < |skus| - 1 && Exact(skus[1..][i], proj, ids) ensures i + 1 == q { assert skus[1..][i] == skus[i + 1]; }
      }
      ExactOnce(skus[1..], proj, ids, q - 1);
    }
  }

  lemma {:induction false} NoneExact(skus: seq<Sku>, proj: Projections, ids: seq<string>)
    requires forall i | 0 <= i < |skus| :: !Exact(skus[i], proj, ids)
    ensures ExactSkus(skus, proj, ids) == []
  {
    if skus != [] { NoneExact(skus[1..], proj, ids); }
  }

  /** A full selection that still promises a SKU means that SKU. */
  lemma FullSelectionResolves(d: Document, proj: Projections, ids: seq<string>, q: int)
    requires Sellable(d) && Promised(d, proj, ids, q) && FullSelection(d, ids)
    ensures SelectedSku(d, proj, ids) == Some(d.skus[q].sequence)
  {
    ValuesDistinct(d, q);
    forall v ensures v in Elements(Values(d.skus[q].pairs)) <==> v in Chosen(ids) { FullMatch(d, proj, ids, q, v); }
    assert Elements(Values(d.skus[q].pairs)) == Chosen(ids);
    forall i | 0 <= i < |d.skus| && Exact(d.skus[i], proj, ids) ensures i == q { OneMatch(d, proj, ids, i, q); }
    ExactOnce(d.skus, proj, ids, q);
  }

  /** A customer who only ever takes selectable options of dimensions not yet chosen from. */
  predicate Path(d: Document, proj: Projections, choices: seq<string>) { forall i | 0 <= i < |choices| :: OpenAt(d, proj, choices, i) }

  predicate OpenAt(d: Document, proj: Projections, choices: seq<string>, i: nat)
    requires i < |choices|
  {
    OpenChoice(d, proj, choices[..i], choices[i])
  }

  /** Where a path has led so far. */
  predicate Stands(d: Document, proj: Projections, ids: seq<string>) { ValidSelection(d.dimensions, ids) && Promising(d, proj, ids) }

  lemma OneChoice(d: Document, proj: Projections, choices: seq<string>, i: nat)
    requires Sellable(d) && i < |choices| && ValidSelection(d.dimensions, choices[..i]) && OpenAt(d, proj, choices, i)
    ensures Stands(d, proj, choices[..i + 1])
  {
    SelectableMeansReachable(d, proj, choices[..i], choices[i]);
    ChoiceKeepsPromise(d, proj, choices[..i], choices[i]);
    assert choices[..i + 1] == choices[..i] + [choices[i]];
  }

  lemma {:induction false} PathPromises(d: Document, proj: Projections, choices: seq<string>, n: nat)
    requires Sellable(d) && Path(d, proj, choices) && 1 <= n <= |choices|
    ensures Stands(d, proj, choices[..n])
  {
    if n > 1 { PathPromises(d, proj, choices, n - 1); } else { assert choices[..0] == []; }
    assert OpenAt(d, proj, choices, n - 1);
    OneChoice(d, proj, choices, n - 1);
  }

  /** A path in a shop that has something to sell. */
  predicate Walked(d: Document, proj: Projections, choices: seq<string>) {
    Path(d, proj, choices) && (choices == [] ==> Promising(d, proj, []))
  }

  predicate HasOption(d: Document, proj: Projections, choices: seq<string>, dim: Dimension) {
    exists j :: 0 <= j < |dim.values| && OpenChoice(d, proj, choices, dim.values[j].id)
  }

  /** Every dimension not yet chosen from has an option to take, and once all are chosen a SKU is shown. */
  predicate Continues(d: Document, proj: Projections, choices: seq<string>) {
    && (forall i | 0 <= i < |d.dimensions| && Unselected(d, choices, d.dimensions[i].id) :: HasOption(d, proj, choices, d.dimensions[i]))
    && (FullSelection(d, choices) ==> SelectedSku(d, proj, choices).Some?)
  }

  lemma NoDeadEnds(d: Document, proj: Projections, choices: seq<string>)
    requires Sellable(d) && Walked(d, proj, choices)
    ensures Continues(d, proj, choices)
  {
    if choices != [] { PathPromises(d, proj, choices, |choices|); }
    assert choices[..|choices|] == choices;
    var q :| 0 <= q < |d.skus| && Promised(d, proj, choices, q);
    forall i | 0 <= i < |d.dimensions| && Unselected(d, choices, d.dimensions[i].id)
      ensures HasOption(d, proj, choices, d.dimensions[i])
    {
      var j := AnOptionRemains(d, proj, choices, i, q);
      SelectableMeansReachable(d, proj, choices, d.dimensions[i].values[j].id);
    }
    if FullSelection(d, choices) { FullSelectionResolves(d, proj, choices, q); }
  }
}
