/** What the consumer's selector returns, told from the document and the shop alone; and why following it is never a dead end. */
module SkuSelection {
  import opened Basics
  import opened SkuCore
  import opened SkuDocument
  import opened SkuHistory
  import opened SkuSelector

  // ----- what is shown -----

  /** The live dimension this value counts for: of several the last. */
  predicate CountsFor(dims: seq<Dimension>, v: string, i: nat) {
    && i < |dims| && !dims[i].archived && SpecValue(v, false) in dims[i].values
    && forall j | i < j < |dims| && !dims[j].archived :: SpecValue(v, false) !in dims[j].values
  }

  predicate CountsSomewhere(dims: seq<Dimension>, v: string) { exists i :: 0 <= i < |dims| && CountsFor(dims, v, i) }

  predicate CountApart(dims: seq<Dimension>, v: string, w: string) {
    forall i, j | 0 <= i < |dims| && 0 <= j < |dims| && CountsFor(dims, v, i) && CountsFor(dims, w, j) :: dims[i].id != dims[j].id
  }

  /** Every value chosen is a live one, and no two count for one dimension. */
  predicate CanBeChosen(dims: seq<Dimension>, ids: seq<string>) {
    && (forall k | 0 <= k < |ids| :: CountsSomewhere(dims, ids[k]))
    && forall k, l | 0 <= k < l < |ids| :: CountApart(dims, ids[k], ids[l])
  }

  function ChosenPlaces(pairs: seq<Pair>, ids: seq<string>): set<nat> { set k: nat | k < |pairs| && pairs[k].value in ids }

  function DistinctIds(ids: seq<string>): set<string> { set v | v in ids }

  /** The SKU is on sale, shown, and has as many of the chosen values as were chosen. */
  predicate IsLeft(s: Sku, proj: Projections, ids: seq<string>) {
    && !s.archived && s.config.status == Enabled && s.sequence in proj && proj[s.sequence].visible
    && |ChosenPlaces(s.pairs, ids)| == |DistinctIds(ids)|
  }

  predicate IsLeftWith(s: Sku, proj: Projections, ids: seq<string>, v: string) {
    IsLeft(s, proj, ids) && exists k :: 0 <= k < |s.pairs| && s.pairs[k].value == v
  }

  predicate CanBeBought(d: Document, proj: Projections, ids: seq<string>, v: string) {
    exists i :: 0 <= i < |d.skus| && IsLeftWith(d.skus[i], proj, ids, v) && proj[d.skus[i].sequence].selectable
  }

  predicate IsSoldOut(d: Document, proj: Projections, ids: seq<string>, v: string) {
    exists i :: 0 <= i < |d.skus| && IsLeftWith(d.skus[i], proj, ids, v) && proj[d.skus[i].sequence].availability == "out-of-stock"
  }

  predicate IsLeftAtAll(d: Document, proj: Projections, ids: seq<string>, v: string) { exists i :: 0 <= i < |d.skus| && IsLeftWith(d.skus[i], proj, ids, v) }

  predicate StateIs(d: Document, proj: Projections, ids: seq<string>, v: string, state: OptionState) {
    && (state == Selected <==> v in ids)
    && (state == Selectable <==> v !in ids && CanBeBought(d, proj, ids, v))
    && (state == OutOfStock <==> v !in ids && !CanBeBought(d, proj, ids, v) && IsSoldOut(d, proj, ids, v))
    && (state == Impossible <==> v !in ids && !IsLeftAtAll(d, proj, ids, v))
  }

  function LiveValues(values: seq<SpecValue>): seq<string> {
    if values == [] then [] else if values[|values| - 1].archived then LiveValues(values[..|values| - 1])
    else LiveValues(values[..|values| - 1]) + [values[|values| - 1].id]
  }

  function LiveDimensions(dims: seq<Dimension>): seq<Dimension> {
    if dims == [] then [] else if dims[|dims| - 1].archived then LiveDimensions(dims[..|dims| - 1])
    else LiveDimensions(dims[..|dims| - 1]) + [dims[|dims| - 1]]
  }

  predicate OptionsShown(d: Document, proj: Projections, ids: seq<string>, live: seq<string>, options: seq<OptionView>) {
    |options| == |live| && forall j | 0 <= j < |live| :: options[j].value == live[j] && StateIs(d, proj, ids, live[j], options[j].state)
  }

  /** The SKU has exactly the chosen values and can be bought. */
  predicate IsMeant(s: Sku, proj: Projections, ids: seq<string>) {
    IsLeft(s, proj, ids) && |s.pairs| == |DistinctIds(ids)| && proj[s.sequence].selectable
  }

  predicate OnlyMeant(d: Document, proj: Projections, ids: seq<string>, i: nat) {
    i < |d.skus| && IsMeant(d.skus[i], proj, ids) && forall j | 0 <= j < |d.skus| && IsMeant(d.skus[j], proj, ids) :: j == i
  }

  /** The live dimensions in order, each with its live values in order and their states; and the one SKU that is meant, if there is one. */
  ghost predicate Shows(d: Document, proj: Projections, ids: seq<string>, view: Selection) {
    var live := LiveDimensions(d.dimensions);
    && |view.dimensions| == |live|
    && (forall i | 0 <= i < |live| ::
          view.dimensions[i].dimension == live[i].id && OptionsShown(d, proj, ids, LiveValues(live[i].values), view.dimensions[i].options))
    && (view.sku.Some? <==> exists i: nat :: OnlyMeant(d, proj, ids, i))
    && forall i: nat | OnlyMeant(d, proj, ids, i) :: view.sku == Some(d.skus[i].sequence)
  }

  // ----- that it is what the selector computes -----

  lemma {:induction false} OwnerIs(dims: seq<Dimension>, v: string)
    ensures forall i: nat | CountsFor(dims, v, i) :: OwnerOf(dims, v) == Some(dims[i].id)
    ensures OwnerOf(dims, v).Some? ==> exists i :: 0 <= i < |dims| && CountsFor(dims, v, i)
  {
    if dims != [] {
      var n := |dims| - 1;
      OwnerIs(dims[..n], v);
      assert LiveValue(dims[n], v) <==> !dims[n].archived && SpecValue(v, false) in dims[n].values;
      if LiveValue(dims[n], v) {
        assert CountsFor(dims, v, n);
      } else {
        forall i: nat | i < n ensures CountsFor(dims, v, i) <==> CountsFor(dims[..n], v, i) { CountsBelow(dims, v, i); }
      }
    }
  }

  lemma CountsBelow(dims: seq<Dimension>, v: string, i: nat)
    requires i < |dims| - 1 && (dims[|dims| - 1].archived || SpecValue(v, false) !in dims[|dims| - 1].values)
    ensures CountsFor(dims, v, i) <==> CountsFor(dims[..|dims| - 1], v, i)
  {
  }

  lemma ApartIff(dims: seq<Dimension>, v: string, w: string)
    requires CountsSomewhere(dims, v) && CountsSomewhere(dims, w)
    ensures CountApart(dims, v, w) <==> OwnerOf(dims, v) != OwnerOf(dims, w)
  {
    OwnerIs(dims, v);
    OwnerIs(dims, w);
    var i :| 0 <= i < |dims| && CountsFor(dims, v, i);
    var j :| 0 <= j < |dims| && CountsFor(dims, w, j);
  }

  lemma ChosenIff(dims: seq<Dimension>, ids: seq<string>)
    ensures ValidSelection(dims, ids) <==> CanBeChosen(dims, ids)
  {
    forall k | 0 <= k < |ids| ensures OwnerOf(dims, ids[k]).Some? <==> CountsSomewhere(dims, ids[k]) { OwnerIs(dims, ids[k]); }
    if forall k | 0 <= k < |ids| :: CountsSomewhere(dims, ids[k]) {
      forall k, l | 0 <= k < l < |ids| ensures CountApart(dims, ids[k], ids[l]) <==> OwnerOf(dims, ids[k]) != OwnerOf(dims, ids[l]) {
        ApartIff(dims, ids[k], ids[l]);
      }
    }
  }

  lemma {:induction false} HitsArePlaces(pairs: seq<Pair>, ids: seq<string>, n: nat)
    requires n <= |pairs|
    ensures Hits(Values(pairs)[n..], Chosen(ids)) == |set k: nat | n <= k < |pairs| && pairs[k].value in ids|
    decreases |pairs| - n
  {
    var places := set k: nat | n <= k < |pairs| && pairs[k].value in ids;
    if n == |pairs| {
      assert places == {};
    } else {
      HitsArePlaces(pairs, ids, n + 1);
      var rest := set k: nat | n + 1 <= k < |pairs| && pairs[k].value in ids;
      assert Values(pairs)[n..][1..] == Values(pairs)[n + 1..];
      assert pairs[n].value in Chosen(ids) <==> pairs[n].value in ids;
      assert places == rest + if pairs[n].value in ids then {n} else {};
    }
  }

  lemma CandidateIsLeft(s: Sku, proj: Projections, ids: seq<string>)
    ensures Candidate(s, proj, ids) <==> IsLeft(s, proj, ids)
    ensures Exact(s, proj, ids) <==> IsMeant(s, proj, ids)
  {
    HitsArePlaces(s.pairs, ids, 0);
    assert Values(s.pairs)[0..] == Values(s.pairs);
    assert ChosenPlaces(s.pairs, ids) == set k: nat | 0 <= k < |s.pairs| && s.pairs[k].value in ids;
    assert Chosen(ids) == DistinctIds(ids);
  }

  lemma StateAsPromised(d: Document, proj: Projections, ids: seq<string>, v: string)
    ensures StateIs(d, proj, ids, v, StateOf(d, proj, ids, v))
  {
    forall i | 0 <= i < |d.skus|
      ensures Candidate(d.skus[i], proj, ids) && HasPairValue(d.skus[i], v) <==> IsLeftWith(d.skus[i], proj, ids, v)
    {
      CandidateIsLeft(d.skus[i], proj, ids);
    }
    assert v in Chosen(ids) <==> v in ids;
  }

  lemma LiveValuesHead(values: seq<SpecValue>)
    requires values != []
    ensures LiveValues(values) == (if values[0].archived then [] else [values[0].id]) + LiveValues(values[1..])
  {
    if |values| > 1 {
      var n := |values| - 1;
      LiveValuesHead(values[..n]);
      assert values[1..][..n - 1] == values[..n][1..];
    } else {
      assert values[..0] == [] && values[1..] == [];
    }
  }

  lemma LiveDimensionsHead(dims: seq<Dimension>)
    requires dims != []
    ensures LiveDimensions(dims) == (if dims[0].archived then [] else [dims[0]]) + LiveDimensions(dims[1..])
  {
    if |dims| > 1 {
      var n := |dims| - 1;
      LiveDimensionsHead(dims[..n]);
      assert dims[1..][..n - 1] == dims[..n][1..];
    } else {
      assert dims[..0] == [] && dims[1..] == [];
    }
  }

  lemma {:induction false} OptionsAsPromised(d: Document, proj: Projections, ids: seq<string>, values: seq<SpecValue>)
    ensures OptionsShown(d, proj, ids, LiveValues(values), Options(d, proj, ids, values))
  {
    if values != [] {
      OptionsAsPromised(d, proj, ids, values[1..]);
      LiveValuesHead(values);
      StateAsPromised(d, proj, ids, values[0].id);
    }
  }

  lemma {:induction false} ViewsAsPromised(d: Document, proj: Projections, ids: seq<string>, dims: seq<Dimension>)
    ensures |Views(d, proj, ids, dims)| == |LiveDimensions(dims)|
    ensures forall i | 0 <= i < |LiveDimensions(dims)| ::
              && Views(d, proj, ids, dims)[i].dimension == LiveDimensions(dims)[i].id
              && OptionsShown(d, proj, ids, LiveValues(LiveDimensions(dims)[i].values), Views(d, proj, ids, dims)[i].options)
  {
    if dims != [] {
      ViewsAsPromised(d, proj, ids, dims[1..]);
      LiveDimensionsHead(dims);
      OptionsAsPromised(d, proj, ids, dims[0].values);
    }
  }

  lemma {:induction false} TwoExact(skus: seq<Sku>, proj: Projections, ids: seq<string>, i: nat, j: nat)
    requires i < j < |skus| && Exact(skus[i], proj, ids) && Exact(skus[j], proj, ids)
    ensures |ExactSkus(skus, proj, ids)| >= 2
  {
    if i == 0 {
      ExactMembers(skus[1..], proj, ids);
      assert skus[1..][j - 1] == skus[j] && skus[j] in skus[1..];
    } else {
      TwoExact(skus[1..], proj, ids, i - 1, j - 1);
    }
  }

  lemma MeantAsPromised(d: Document, proj: Projections, ids: seq<string>)
    ensures SelectedSku(d, proj, ids).Some? <==> exists i: nat :: OnlyMeant(d, proj, ids, i)
    ensures forall i: nat | OnlyMeant(d, proj, ids, i) :: SelectedSku(d, proj, ids) == Some(d.skus[i].sequence)
  {
    var exact := ExactSkus(d.skus, proj, ids);
    ExactMembers(d.skus, proj, ids);
    forall i | 0 <= i < |d.skus| ensures Exact(d.skus[i], proj, ids) <==> IsMeant(d.skus[i], proj, ids) { CandidateIsLeft(d.skus[i], proj, ids); }
    forall i: nat | OnlyMeant(d, proj, ids, i) ensures exact == [d.skus[i]] { ExactOnce(d.skus, proj, ids, i); }
    if |exact| == 1 {
      assert exact[0] in exact;
      var i :| 0 <= i < |d.skus| && d.skus[i] == exact[0];
      forall j | 0 <= j < |d.skus| && Exact(d.skus[j], proj, ids) ensures j == i {
        if j < i { TwoExact(d.skus, proj, ids, j, i); }
        if i < j { TwoExact(d.skus, proj, ids, i, j); }
      }
      assert OnlyMeant(d, proj, ids, i);
    }
  }

  lemma SelectionShows(d: Document, proj: Projections, ids: seq<string>)
    ensures Shows(d, proj, ids, Selection(Views(d, proj, ids, d.dimensions), SelectedSku(d, proj, ids)))
  {
    ViewsAsPromised(d, proj, ids, d.dimensions);
    MeantAsPromised(d, proj, ids);
  }

  // ----- the selector -----

  method GetConsumerSelection(d: Document, proj: Projections, ids: seq<string>) returns (r: Result<Selection>)
    ensures r == if ValidSelection(d.dimensions, ids) then Ok(Selection(Views(d, proj, ids, d.dimensions), SelectedSku(d, proj, ids)))
                 else Err(ValidationFailed)
    ensures r.Ok? <==> CanBeChosen(d.dimensions, ids)
    ensures r.Ok? ==> Shows(d, proj, ids, r.value)
  {
    ChosenIff(d.dimensions, ids);
    SelectionShows(d, proj, ids);
    var ok := CheckSelection(d.dimensions, ids);
    if !ok { return Err(ValidationFailed); }
    r := Ok(Selection(Views(d, proj, ids, d.dimensions), SelectedSku(d, proj, ids)));
  }

  method CheckSelection(dims: seq<Dimension>, ids: seq<string>) returns (ok: bool)
    ensures ok <==> ValidSelection(dims, ids)
  {
    var owners := ValueOwners(dims);
    var chosenDimensions: set<string> := {};
    for i := 0 to |ids|
      invariant ValidSelection(dims, ids[..i])
      invariant forall x :: x in chosenDimensions <==> exists j :: 0 <= j < i && OwnerOf(dims, ids[j]) == Some(x)
    {
      if ids[i] !in owners || owners[ids[i]] in chosenDimensions { return false; }
      chosenDimensions := chosenDimensions + {owners[ids[i]]};
    }
    assert ids[..|ids|] == ids;
    ok := true;
  }

  method ValueOwners(dims: seq<Dimension>) returns (owners: map<string, string>)
    ensures forall v :: (v in owners <==> OwnerOf(dims, v).Some?) && (v in owners ==> OwnerOf(dims, v) == Some(owners[v]))
  {
    owners := map[];
    for i := 0 to |dims|
      invariant forall v :: (v in owners <==> OwnerOf(dims[..i], v).Some?) && (v in owners ==> OwnerOf(dims[..i], v) == Some(owners[v]))
    {
      assert dims[..i + 1][..i] == dims[..i];
      if !dims[i].archived { owners := AddOwners(owners, dims[i]); }
    }
    assert dims[..|dims|] == dims;
  }

  method AddOwners(owners: map<string, string>, dim: Dimension) returns (r: map<string, string>)
    requires !dim.archived
    ensures forall v :: v in r <==> v in owners || LiveValue(dim, v)
    ensures forall v | v in r :: r[v] == if LiveValue(dim, v) then dim.id else owners[v]
  {
    r := owners;
    for j := 0 to |dim.values|
      invariant forall v :: v in r <==> v in owners || LiveValue(dim.(values := dim.values[..j]), v)
      invariant forall v | v in r :: r[v] == if LiveValue(dim.(values := dim.values[..j]), v) then dim.id else owners[v]
    {
      LiveOneMore(dim, j);
      if !dim.values[j].archived { r := r[dim.values[j].id := dim.id]; }
    }
    assert dim.(values := dim.values[..|dim.values|]) == dim;
  }

  lemma LiveOneMore(dim: Dimension, j: nat)
    requires j < |dim.values| && !dim.archived
    ensures forall v :: LiveValue(dim.(values := dim.values[..j + 1]), v) <==>
                          LiveValue(dim.(values := dim.values[..j]), v) || (!dim.values[j].archived && dim.values[j].id == v)
  {
    var less, more := dim.(values := dim.values[..j]), dim.(values := dim.values[..j + 1]);
    assert more.values[j] == dim.values[j];
    forall v | LiveValue(less, v) ensures LiveValue(more, v) {
      var k :| 0 <= k < j && less.values[k] == SpecValue(v, false);
      assert more.values[k] == SpecValue(v, false);
    }
    forall v | LiveValue(more, v) ensures LiveValue(less, v) || (!dim.values[j].archived && dim.values[j].id == v) {
      var k :| 0 <= k < j + 1 && more.values[k] == SpecValue(v, false);
      if k < j { assert less.values[k] == SpecValue(v, false); }
    }
  }

  // ----- following what is shown -----

  predicate OffersIn(view: DimensionView, v: string) { exists j :: 0 <= j < |view.options| && view.options[j] == OptionView(v, Selectable) }

  /** The value is shown as selectable. */
  predicate Offers(view: Selection, v: string) { exists i :: 0 <= i < |view.dimensions| && OffersIn(view.dimensions[i], v) }

  lemma {:induction false} LiveDimensionsAre(dims: seq<Dimension>, dim: Dimension)
    ensures dim in LiveDimensions(dims) <==> dim in dims && !dim.archived
  {
    if dims != [] {
      LiveDimensionsAre(dims[..|dims| - 1], dim);
      assert dims == dims[..|dims| - 1] + [dims[|dims| - 1]];
    }
  }

  lemma {:induction false} LiveValuesAre(values: seq<SpecValue>, v: string)
    ensures v in LiveValues(values) <==> SpecValue(v, false) in values
  {
    if values != [] {
      LiveValuesAre(values[..|values| - 1], v);
      assert values == values[..|values| - 1] + [values[|values| - 1]];
    }
  }

  /** A live value of a live dimension has its option, with its state. */
  lemma OptionShown(d: Document, proj: Projections, ids: seq<string>, view: Selection, dim: Dimension, v: string) returns (i: nat, j: nat)
    requires Shows(d, proj, ids, view) && dim in d.dimensions && !dim.archived && SpecValue(v, false) in dim.values
    ensures i < |view.dimensions| && view.dimensions[i].dimension == dim.id && j < |view.dimensions[i].options|
    ensures view.dimensions[i].options[j].value == v && StateIs(d, proj, ids, v, view.dimensions[i].options[j].state)
  {
    var live := LiveDimensions(d.dimensions);
    LiveDimensionsAre(d.dimensions, dim);
    LiveValuesAre(dim.values, v);
    i :| 0 <= i < |live| && live[i] == dim;
    assert OptionsShown(d, proj, ids, LiveValues(live[i].values), view.dimensions[i].options);
    j :| 0 <= j < |LiveValues(dim.values)| && LiveValues(dim.values)[j] == v;
  }

  lemma SameState(d: Document, proj: Projections, ids: seq<string>, v: string, a: OptionState, b: OptionState)
    requires StateIs(d, proj, ids, v, a) && StateIs(d, proj, ids, v, b)
    ensures a == b
  {
  }

  /** A choice is open exactly when it is shown as selectable and its dimension was not chosen from. */
  lemma OpenIsOffered(d: Document, proj: Projections, ids: seq<string>, view: Selection, v: string)
    requires Shows(d, proj, ids, view)
    ensures OpenChoice(d, proj, ids, v) <==> Offers(view, v) && OwnerOf(d.dimensions, v).Some? && Unselected(d, ids, OwnerOf(d.dimensions, v).value)
  {
    StateAsPromised(d, proj, ids, v);
    OwnerIs(d.dimensions, v);
    if OwnerOf(d.dimensions, v).Some? {
      var n :| 0 <= n < |d.dimensions| && CountsFor(d.dimensions, v, n);
      var i, j := OptionShown(d, proj, ids, view, d.dimensions[n], v);
      SameState(d, proj, ids, v, view.dimensions[i].options[j].state, StateOf(d, proj, ids, v));
      if OpenChoice(d, proj, ids, v) { assert OffersIn(view.dimensions[i], v); }
    }
    if Offers(view, v) { OfferedState(d, proj, ids, view, v); }
  }

  lemma OfferedState(d: Document, proj: Projections, ids: seq<string>, view: Selection, v: string)
    requires Shows(d, proj, ids, view) && Offers(view, v)
    ensures StateOf(d, proj, ids, v) == Selectable
  {
    var i :| 0 <= i < |view.dimensions| && OffersIn(view.dimensions[i], v);
    var j :| 0 <= j < |view.dimensions[i].options| && view.dimensions[i].options[j] == OptionView(v, Selectable);
    assert OptionsShown(d, proj, ids, LiveValues(LiveDimensions(d.dimensions)[i].values), view.dimensions[i].options);
    StateAsPromised(d, proj, ids, v);
    SameState(d, proj, ids, v, Selectable, StateOf(d, proj, ids, v));
  }

  /** What a customer was shown before each choice. */
  ghost predicate WasShown(d: Document, proj: Projections, choices: seq<string>, views: seq<Selection>) {
    |views| == |choices| + 1 && forall i | 0 <= i < |views| :: Shows(d, proj, choices[..i], views[i])
  }

  /** Each choice was shown as selectable, for a dimension not chosen from before; and at the start something could be bought. */
  ghost predicate Follows(d: Document, proj: Projections, choices: seq<string>, views: seq<Selection>)
    requires WasShown(d, proj, choices, views)
  {
    && (forall i | 0 <= i < |choices| ::
          && Offers(views[i], choices[i]) && OwnerOf(d.dimensions, choices[i]).Some?
          && Unselected(d, choices[..i], OwnerOf(d.dimensions, choices[i]).value))
    && (choices == [] ==> exists i :: 0 <= i < |d.skus| && IsLeft(d.skus[i], proj, []) && proj[d.skus[i].sequence].selectable)
  }

  /** The next view offers something of every dimension not chosen from, and shows the SKU once there is none. */
  predicate GoesOn(d: Document, choices: seq<string>, view: Selection) {
    && (forall i | 0 <= i < |d.dimensions| && Unselected(d, choices, d.dimensions[i].id) ::
          exists j :: 0 <= j < |d.dimensions[i].values| && Offers(view, d.dimensions[i].values[j].id)
                      && OwnerOf(d.dimensions, d.dimensions[i].values[j].id).Some?
                      && Unselected(d, choices, OwnerOf(d.dimensions, d.dimensions[i].values[j].id).value))
    && (FullSelection(d, choices) ==> view.sku.Some?)
  }

  lemma FollowedIsWalked(d: Document, proj: Projections, choices: seq<string>, views: seq<Selection>)
    requires WasShown(d, proj, choices, views) && Follows(d, proj, choices, views)
    ensures Walked(d, proj, choices)
  {
    forall i | 0 <= i < |choices| ensures OpenAt(d, proj, choices, i) { OpenIsOffered(d, proj, choices[..i], views[i], choices[i]); }
    if choices == [] {
      var i :| 0 <= i < |d.skus| && IsLeft(d.skus[i], proj, []) && proj[d.skus[i].sequence].selectable;
      CandidateIsLeft(d.skus[i], proj, []);
      assert Promised(d, proj, [], i);
    }
  }

  lemma ContinuesIsShown(d: Document, proj: Projections, choices: seq<string>, view: Selection)
    requires Continues(d, proj, choices) && Shows(d, proj, choices, view)
    ensures GoesOn(d, choices, view)
  {
    forall i | 0 <= i < |d.dimensions| && Unselected(d, choices, d.dimensions[i].id)
      ensures exists j :: 0 <= j < |d.dimensions[i].values| && Offers(view, d.dimensions[i].values[j].id)
                          && OwnerOf(d.dimensions, d.dimensions[i].values[j].id).Some?
                          && Unselected(d, choices, OwnerOf(d.dimensions, d.dimensions[i].values[j].id).value)
    {
      assert HasOption(d, proj, choices, d.dimensions[i]);
      var j :| 0 <= j < |d.dimensions[i].values| && OpenChoice(d, proj, choices, d.dimensions[i].values[j].id);
      OpenIsOffered(d, proj, choices, view, d.dimensions[i].values[j].id);
    }
    MeantAsPromised(d, proj, choices);
  }

  /** Whoever only takes what is shown as selectable is always shown how to go on, and in the end the SKU. */
  lemma NoDeadEndsAreShown(d: Document, proj: Projections, choices: seq<string>, views: seq<Selection>)
    requires Sellable(d) && WasShown(d, proj, choices, views) && Follows(d, proj, choices, views)
    ensures GoesOn(d, choices, views[|choices|])
  {
    FollowedIsWalked(d, proj, choices, views);
    NoDeadEnds(d, proj, choices);
    assert choices[..|choices|] == choices;
    ContinuesIsShown(d, proj, choices, views[|choices|]);
  }

  /** An option not yet chosen is shown with what taking it would leave of the shop. */
  lemma ShownStatesLookAhead(d: Document, proj: Projections, ids: seq<string>, view: Selection, i: nat, j: nat)
    requires Sellable(d) && Shows(d, proj, ids, view) && i < |view.dimensions| && j < |view.dimensions[i].options|
    requires view.dimensions[i].options[j].value !in ids
    ensures var v, state := view.dimensions[i].options[j].value, view.dimensions[i].options[j].state;
            && (state == Selectable <==> exists k :: 0 <= k < |d.skus| && IsLeft(d.skus[k], proj, ids + [v]) && proj[d.skus[k].sequence].selectable)
            && (state == OutOfStock <==>
                  && (forall k | 0 <= k < |d.skus| && IsLeft(d.skus[k], proj, ids + [v]) :: !proj[d.skus[k].sequence].selectable)
                  && exists k :: 0 <= k < |d.skus| && IsLeft(d.skus[k], proj, ids + [v]) && proj[d.skus[k].sequence].availability == "out-of-stock")
            && (state == Impossible <==> forall k | 0 <= k < |d.skus| :: !IsLeft(d.skus[k], proj, ids + [v]))
  {
    var v, state := view.dimensions[i].options[j].value, view.dimensions[i].options[j].state;
    assert OptionsShown(d, proj, ids, LiveValues(LiveDimensions(d.dimensions)[i].values), view.dimensions[i].options);
    forall k | 0 <= k < |d.skus| ensures IsLeft(d.skus[k], proj, ids + [v]) <==> IsLeftWith(d.skus[k], proj, ids, v) { LeftAfterChoice(d, proj, ids, v, k); }
  }

  lemma LeftAfterChoice(d: Document, proj: Projections, ids: seq<string>, v: string, k: nat)
    requires Sellable(d) && k < |d.skus|
    ensures IsLeft(d.skus[k], proj, ids + [v]) <==> IsLeftWith(d.skus[k], proj, ids, v)
  {
    CandidateIsLeft(d.skus[k], proj, ids);
    CandidateIsLeft(d.skus[k], proj, ids + [v]);
    if Active(d.skus[k]) { GrownCandidate(d, proj, ids, v, k); }
  }
}
