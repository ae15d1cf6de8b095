/** The command handlers of sku-kit: the loops that validate, resolve, allocate, patch and copy in place. */
module SkuService {
  import opened Basics
  import opened SkuCore
  import opened SkuAmount
  import opened SkuDocument
  import opened SkuHistory
  import opened SkuCatalogue
  import opened SkuSaveOutcome
  import opened SkuStructure
  import opened SkuEffects

  // ----- validation -----

  method CheckNames(names: seq<string>) returns (ok: bool)
    ensures ok <==> NamesDistinct(names)
  {
    var seen: set<string> := {};
    for i := 0 to |names|
      invariant NamesDistinct(names[..i]) && forall s :: s in seen <==> exists j :: 0 <= j < i && names[j] == s
    {
      if names[i] == "" || names[i] in seen { return false; }
      seen := seen + {names[i]};
    }
    assert names[..|names|] == names;
    ok := true;
  }

  predicate ValuesValid(d: DimensionInput) { 1 <= |d.values| <= MAX_VALUES_PER_DIMENSION && NamesDistinct(ValueNames(d.values)) }

  method ValidateStructure(c: Command) returns (ok: bool)
    requires c.Save?
    ensures ok <==> ValidStructure(c)
    ensures ok ==> |c.dimensions| <= 5 && |c.combinations| <= 100 && Product(ValueCounts(c.dimensions)) <= 100
                   && forall i | 0 <= i < |c.dimensions| :: 1 <= |c.dimensions[i].values| <= 100
  {
    if |c.dimensions| > MAX_DIMENSIONS { return false; }
    var named := CheckNames(DimensionNames(c.dimensions));
    if !named { return false; }
    for i := 0 to |c.dimensions|
      invariant forall j | 0 <= j < i :: ValuesValid(c.dimensions[j])
    {
      var values := c.dimensions[i].values;
      var valued := CheckNames(ValueNames(values));
      if |values| == 0 || |values| > MAX_VALUES_PER_DIMENSION || !valued {
        assert !ValuesValid(c.dimensions[i]);
        return false;
      }
    }
    assert forall j | 0 <= j < |c.dimensions| :: ValuesValid(c.dimensions[j]);
    var few, _ := CalculatePotentialCombinations(ValueCounts(c.dimensions), MAX_COMBINATIONS);
    if !few || |c.combinations| > MAX_COMBINATIONS { return false; }
    ok := c.dimensions == [] <==> c.combinations == [];
  }

  // ----- dimensions and mappings -----

  method BuildValues(inputs: seq<ValueInput>, ids: seq<string>, m: map<string, string>) returns (values: seq<SpecValue>, m': map<string, string>)
    ensures values == NewValues(inputs, ids) && m' == ValueMappings(m, inputs, ids)
  {
    values, m' := [], m;
    for j := 0 to |inputs|
      invariant values == NewValues(inputs, ids)[..j] && m' == ValueMappings(m, inputs[..j], ids)
    {
      var id := ValueId(inputs[j], At(ids, j));
      assert inputs[..j + 1][..j] == inputs[..j];
      m' := Mapped(m', inputs[j].draftKey, id);
      values := values + [SpecValue(id, false)];
    }
    assert inputs[..|inputs|] == inputs;
  }

  method KeepOldValues(prior: seq<SpecValue>, values: seq<SpecValue>) returns (all: seq<SpecValue>)
    ensures all == values + LeftValues(prior, values)
  {
    all := values;
    for i := 0 to |prior|
      invariant all + LeftValues(prior[i..], all) == values + LeftValues(prior, values)
    {
      assert prior[i..][1..] == prior[i + 1..];
      if !HasValue(all, prior[i].id) {
        var v := SpecValue(prior[i].id, true);
        assert all + ([v] + LeftValues(prior[i + 1..], all + [v])) == all + [v] + LeftValues(prior[i + 1..], all + [v]);
        all := all + [v];
      }
    }
    assert all + [] == all;
  }

  method BuildDimension(d: Document, input: DimensionInput, newId: string, valueIds: seq<string>, m: map<string, string>)
    returns (dim: Dimension, m': map<string, string>)
    ensures dim == BuiltDimension(d, input, newId, valueIds)
    ensures m' == ValueMappings(Mapped(m, input.draftKey, DimensionId(d, input, newId)), input.values, valueIds)
  {
    var previous := Previous(d, input);
    var id := if previous.Some? then previous.value.id else if input.id.Some? then input.id.value else newId;
    var values;
    values, m' := BuildValues(input.values, valueIds, Mapped(m, input.draftKey, id));
    if previous.Some? { values := KeepOldValues(previous.value.values, values); } else { assert values + [] == values; }
    dim := Dimension(id, values, false);
  }

  method KeepOldDimensions(prior: seq<Dimension>, kept: seq<Dimension>) returns (all: seq<Dimension>)
    ensures all == kept + LeftDimensions(prior, kept)
  {
    all := kept;
    for i := 0 to |prior|
      invariant all + LeftDimensions(prior[i..], all) == kept + LeftDimensions(prior, kept)
    {
      assert prior[i..][1..] == prior[i + 1..];
      if FindDimension(all, prior[i].id).None? {
        var v := Dimension(prior[i].id, ArchivedValues(prior[i].values), true);
        assert all + ([v] + LeftDimensions(prior[i + 1..], all + [v])) == all + [v] + LeftDimensions(prior[i + 1..], all + [v]);
        all := all + [v];
      }
    }
    assert all + [] == all;
  }

  method BuildKept(d: Document, c: Command, env: Env) returns (dims: seq<Dimension>, m: map<string, string>)
    requires c.Save?
    ensures dims == KeptDimensions(d, c, env) && m == Mappings(d, c.dimensions, env)
  {
    dims, m := [], map[];
    for i := 0 to |c.dimensions|
      invariant |dims| == i && forall k | 0 <= k < i :: dims[k] == BuiltDimension(d, c.dimensions[k], At(env.dimensionIds, k), Ids(env, k))
      invariant m == Mappings(d, c.dimensions[..i], env)
    {
      assert c.dimensions[..i + 1][..i] == c.dimensions[..i];
      var dim;
      dim, m := BuildDimension(d, c.dimensions[i], At(env.dimensionIds, i), Ids(env, i), m);
      dims := dims + [dim];
    }
    assert c.dimensions[..|c.dimensions|] == c.dimensions;
  }

  method BuildDimensions(d: Document, c: Command, env: Env) returns (dims: seq<Dimension>, m: map<string, string>)
    requires c.Save?
    ensures dims == NewDimensions(d, c, env) && m == Mappings(d, c.dimensions, env)
    ensures DimensionsAsPromised(d, c, env, dims) && MapsAsPromised(m, Entries(c.dimensions, env))
  {
    NewDimensionsAsPromised(d, c, env);
    MappingsAsPromised(d, c.dimensions, env);
    dims, m := BuildKept(d, c, env);
    dims := KeepOldDimensions(d.dimensions, dims);
  }

  // ----- combinations -----

  method CheckPairs(pairs: seq<Pair>, dims: seq<Dimension>) returns (ok: bool)
    ensures ok <==> DistinctDimensions(pairs) && forall i | 0 <= i < |pairs| :: InDimensions(pairs[i], dims)
  {
    var used: set<string> := {};
    for i := 0 to |pairs|
      invariant DistinctDimensions(pairs[..i]) && forall j | 0 <= j < i :: InDimensions(pairs[j], dims)
      invariant forall s :: s in used <==> exists j :: 0 <= j < i && pairs[j].dimension == s
    {
      if pairs[i].dimension in used || !InDimensions(pairs[i], dims) { return false; }
      used := used + {pairs[i].dimension};
    }
    assert pairs[..|pairs|] == pairs;
    ok := true;
  }

  /** All pairs must refer to something, there must be one per dimension, and no dimension twice. */
  method ResolvePairs(pairs: seq<PairInput>, m: map<string, string>, dims: seq<Dimension>) returns (r: Result<seq<Pair>>)
    ensures r == Resolve(pairs, m, dims)
  {
    if exists i :: 0 <= i < |pairs| && !Referenced(pairs[i], m) { return Err(ValidationFailed); }
    if |pairs| != |dims| { return Err(ValidationFailed); }
    var resolved := PairsOf(pairs, m);
    var ok := CheckPairs(resolved, dims);
    if !ok { return Err(ValidationFailed); }
    r := Ok(resolved);
  }

  /** One combination: keep, restore or issue its SKU. */
  method AllocateNext(a: Allocation, combination: seq<PairInput>, m: map<string, string>, dims: seq<Dimension>, restore: set<nat>)
    returns (a': Allocation)
    requires a.problem == None
    ensures a' == AllocateOne(a, combination, m, dims, restore)
    ensures Handles(a, a', combination, m, dims, restore)
  {
    AllocateOneHandles(a, combination, m, dims, restore);
    var resolved := ResolvePairs(combination, m, dims);
    if resolved.Err? { return a.(problem := Some(resolved.problem)); }
    var key := CombinationKey(resolved.value);
    if HasKey(a.skus, key) { return a.(problem := Some(CombinationConflict)); }
    if HasKey(a.doc.skus, key) {
      var prior := FindKey(a.doc.skus, key);
      if !prior.archived { return a.(skus := a.skus + [prior.(pairs := resolved.value)]); }
      if prior.sequence !in restore { return a.(problem := Some(RestoreRequired)); }
      return a.(skus := a.skus + [Restored(prior, resolved.value)]);
    }
    if a.doc.nextSequence >= 100 { return a.(problem := Some(CapacityExhausted)); }
    var code := FormatSkuCode(a.doc.spuCode, a.doc.nextSequence);
    if code.Err? { return a.(problem := Some(code.problem)); }
    var n := a.doc.nextSequence;
    var document, skus := a.doc, a.skus;
    skus := skus + [Sku(n, code.value, key, resolved.value, Config(Disabled, None, None, None), 1, false)];
    document := document.(inventories := document.inventories[n := Inventory(0, 1)]);
    document := document.(nextSequence := n + 1);
    return Allocation(document, skus, None);
  }

  method AllocateAll(d: Document, c: Command, m: map<string, string>, dims: seq<Dimension>) returns (a: Allocation)
    requires c.Save?
    ensures a == Allocate(d, Combinations(c), m, dims, c.restore)
  {
    var combinations := if c.dimensions == [] then [[]] else c.combinations;
    a := Allocation(d, [], None);
    for i := 0 to |combinations|
      invariant a == Allocate(d, combinations[..i], m, dims, c.restore)
    {
      assert combinations[..i + 1][..i] == combinations[..i];
      if a.problem.None? { a := AllocateNext(a, combinations[i], m, dims, c.restore); }
    }
    assert combinations[..|combinations|] == combinations;
  }

  method ArchiveRest(prior: seq<Sku>, kept: seq<Sku>) returns (all: seq<Sku>)
    ensures all == kept + Departed(prior, kept)
  {
    var gone: seq<Sku> := [];
    for i := 0 to |prior|
      invariant gone + Departed(prior[i..], kept) == Departed(prior, kept)
    {
      DepartNext(prior, kept, gone, i);
      if !prior[i].archived && !HasSequence(kept, prior[i].sequence) { gone := gone + [ArchivedSku(prior[i])]; }
    }
    assert gone + [] == gone;
    all := kept + gone;
  }

  lemma DepartNext(prior: seq<Sku>, kept: seq<Sku>, gone: seq<Sku>, i: nat)
    requires i < |prior|
    ensures gone + Departed(prior[i..], kept)
            == (if prior[i].archived || HasSequence(kept, prior[i].sequence) then gone else gone + [ArchivedSku(prior[i])]) + Departed(prior[i + 1..], kept)
  {
    assert prior[i..][1..] == prior[i + 1..];
  }

  class SkuService {
    var documents: Catalogue

    method SaveConfiguration(spuId: string, c: Command, env: Env) returns (r: Result<Outcome>)
      requires c.Save?
      modifies this
      ensures (documents, r) == Next(old(documents), Call(spuId, c, env))
    {
      if !ValidCommandId(c.commandId) || !ValidSpuCode(c.spuCode) { return Err(ValidationFailed); }
      if Taken(documents, spuId, c.spuCode) { return Err(SpuCodeConflict); }
      var valid := ValidateStructure(c);
      if !valid { return Err(ValidationFailed); }
      var document;
      document, r := SaveTransaction(Stored(documents, spuId), c, env);
      documents := documents[spuId := document];
    }

    static method SaveTransaction(existing: Option<Document>, c: Command, env: Env) returns (document: Document, r: Result<Outcome>)
      requires c.Save?
      ensures (document, r) == SaveTx(existing, c, env)
      ensures !ChecksPass(existing, c, env) ==> document == Base(existing, c)
      ensures SavesAsAsked(existing, c, env, document, r)
    {
      SaveOutcome(existing, c, env);
      document := if existing.Some? then existing.value else CreateDocument(c.spuCode);
      if document.spuCode != c.spuCode { return document, Err(SpuCodeMismatch); }
      if HasReceipt(document.commands, c.commandId) { return document, Replay(document, c); }
      if c.expectedStructure.Some? && c.expectedStructure.value != document.structureVersion { return document, Err(VersionConflict); }
      if !IdsKnown(document, c) { return document, Err(ValidationFailed); }
      if Blocked(existing, c, env.approval) { return document, Err(TransitionBlocked); }
      document, r := RebuildDocument(document, c, env);
    }

    static method RebuildDocument(d: Document, c: Command, env: Env) returns (document: Document, r: Result<Outcome>)
      requires c.Save?
      ensures (document, r) == Rebuild(d, c, env)
    {
      var dims, m := BuildDimensions(d, c, env);
      document, r := RebuildSkus(d, c, env, dims, m);
    }

    static method RebuildSkus(d: Document, c: Command, env: Env, dims: seq<Dimension>, m: map<string, string>)
      returns (document: Document, r: Result<Outcome>)
      requires c.Save? && dims == NewDimensions(d, c, env) && m == Mappings(d, c.dimensions, env)
      ensures (document, r) == Rebuild(d, c, env)
    {
      var a := AllocateAll(d, c, m, dims);
      if a.problem.Some? { return a.doc, Err(a.problem.value); }
      var skus := ArchiveRest(a.doc.skus, a.skus);
      document := a.doc.(dimensions := dims);
      document := document.(skus := skus);
      document := document.(structureVersion := document.structureVersion + 1);
      var saved := Saved(document.structureVersion, SavedSkus(a.skus), m);
      document := document.(commands := document.commands + [Receipt(c, saved)]);
      r := Ok(saved);
    }

    method PatchSkuConfigurations(spuId: string, c: Command, env: Env) returns (r: Result<Outcome>)
      requires c.PatchSkus?
      modifies this
      ensures (documents, r) == Next(old(documents), Call(spuId, c, env))
    {
      if !ValidCommandId(c.commandId) || c.patches == [] { return Err(ValidationFailed); }
      if spuId !in documents { return Err(NotFound); }
      var document;
      document, r := PatchTransaction(documents[spuId], c);
      documents := documents[spuId := document];
    }

    static method PatchTransaction(d: Document, c: Command) returns (document: Document, r: Result<Outcome>)
      requires c.PatchSkus?
      ensures (document, r) == PatchTx(d, c)
      ensures DocInv(d) && !HasReceipt(d.commands, c.commandId) && r.Ok? ==> PatchedAsAsked(d, document, c, r.value)
    {
      if DocInv(d) && !HasReceipt(d.commands, c.commandId) && PatchTx(d, c).1.Ok? { PatchTxKeepsPromise(d, c); }
      document := d;
      if HasReceipt(document.commands, c.commandId) { return document, Replay(document, c); }
      if c.expectedStructure.Some? && c.expectedStructure.value != document.structureVersion { return document, Err(VersionConflict); }
      var s := Patching(document, [], None);
      var ids: set<nat> := {};
      for i := 0 to |c.patches|
        invariant s == PatchAll(d, c.patches, i)
        invariant forall n :: n in ids <==> exists j :: 0 <= j < i && c.patches[j].sku == n
      {
        if s.problem.None? { s := PatchNext(s, c.patches, i, c.patches[i].sku in ids); }
        ids := ids + {c.patches[i].sku};
      }
      if s.problem.Some? { return s.doc, Err(s.problem.value); }
      document := Recorded(s.doc, c, Patched(s.affected));
      r := Ok(Patched(s.affected));
    }

    /** Field by field; what was changed before a bad price stays changed. */
    static method PatchNext(s: Patching, patches: seq<Patch>, n: nat, repeated: bool) returns (s': Patching)
      requires n < |patches| && repeated == Repeats(patches, n) && s.problem == None
      ensures s' == PatchOne(s, patches, n)
    {
      var p := patches[n];
      if repeated { return s.(problem := Some(ValidationFailed)); }
      if !HasSequence(s.doc.skus, p.sku) { return s.(problem := Some(NotFound)); }
      var sku := FindSequence(s.doc.skus, p.sku);
      if sku.archived { return s.(problem := Some(NotFound)); }
      if sku.configVersion != p.expected { return s.(problem := Some(VersionConflict)); }
      var problem: Option<Problem>;
      sku, problem := Reconfigure(sku, p);
      var document := s.doc.(skus := Replaced(s.doc.skus, sku));
      if problem.Some? { return Patching(document, s.affected, problem); }
      s' := Patching(document, s.affected + [View(sku)], None);
    }

    static method Reconfigure(sku: Sku, p: Patch) returns (s: Sku, problem: Option<Problem>)
      ensures (s, problem) == PatchedSku(sku, p)
      ensures PatchesAsPromised(sku, p, s, problem)
    {
      PatchKeepsPromise(sku, p);
      s := sku;
      match p.retail {
        case Keep =>
        case Clear => s := s.(config := s.config.(retail := None));
        case Set(v) =>
          var price := ValidateCnyAmount(v);
          if price.Err? { return s, Some(price.problem); }
          s := s.(config := s.config.(retail := Some(price.value)));
      }
      match p.supply {
        case Keep =>
        case Clear => s := s.(config := s.config.(supply := None));
        case Set(v) =>
          var price := ValidateCnyAmount(v);
          if price.Err? { return s, Some(price.problem); }
          s := s.(config := s.config.(supply := Some(price.value)));
      }
      match p.image {
        case Keep =>
        case Clear => s := s.(config := s.config.(image := None));
        case Set(v) => s := s.(config := s.config.(image := Some(v)));
      }
      if p.status.Some? { s := s.(config := s.config.(status := p.status.value)); }
      s := s.(configVersion := s.configVersion + 1);
      problem := None;
    }

    method CopySkuConfiguration(spuId: string, c: Command, env: Env) returns (r: Result<Outcome>)
      requires c.CopySku?
      modifies this
      ensures (documents, r) == Next(old(documents), Call(spuId, c, env))
    {
      if !ValidCommandId(c.commandId) || c.fields == [] || c.targets == [] || !TargetsDistinct(c.targets) { return Err(ValidationFailed); }
      if spuId !in documents { return Err(NotFound); }
      var document;
      document, r := CopyTransaction(documents[spuId], c);
      documents := documents[spuId := document];
    }

    static method CopyTransaction(d: Document, c: Command) returns (document: Document, r: Result<Outcome>)
      requires c.CopySku?
      ensures (document, r) == CopyTx(d, c)
      ensures DocInv(d) && TargetsDistinct(c.targets) && !HasReceipt(d.commands, c.commandId) && r.Ok? ==> CopiedAsAsked(d, document, c, r.value)
    {
      if DocInv(d) && TargetsDistinct(c.targets) && !HasReceipt(d.commands, c.commandId) && CopyTx(d, c).1.Ok? { CopyTxKeepsPromise(d, c); }
      document := d;
      if HasReceipt(document.commands, c.commandId) { return document, Replay(document, c); }
      if !ActiveSku(document, c.source) { return document, Err(NotFound); }
      if (exists i :: 0 <= i < |c.targets| && !ActiveSku(document, c.targets[i])) || c.source in c.targets { return document, Err(ValidationFailed); }
      var source := FindActive(document.skus, c.source).config;
      var s := Patching(document, [], None);
      for i := 0 to |c.targets|
        invariant s == CopyAll(d, source, c.targets[..i], c)
      {
        assert c.targets[..i + 1][..i] == c.targets[..i];
        s := CopyNext(s, source, c.targets[i], c);
      }
      assert c.targets[..|c.targets|] == c.targets;
      document := Recorded(s.doc, c, Patched(s.affected));
      r := Ok(Patched(s.affected));
    }

    static method CopyNext(s: Patching, source: Config, target: nat, c: Command) returns (s': Patching)
      requires c.CopySku?
      ensures s' == CopyTo(s, source, target, c)
    {
      if !ActiveSku(s.doc, target) { return s; }
      var sku := FindActive(s.doc.skus, target);
      var config := CopyInto(source, sku.config, c.fields, c.overwrite);
      sku := sku.(config := config);
      sku := sku.(configVersion := sku.configVersion + 1);
      s' := Patching(s.doc.(skus := Replaced(s.doc.skus, sku)), s.affected + [View(sku)], None);
    }

    static method CopyInto(source: Config, target: Config, fields: seq<Field>, overwrite: bool) returns (config: Config)
      ensures config == CopyFields(source, target, fields, overwrite)
      ensures CopiesAsPromised(source, target, fields, overwrite, config)
    {
      CopyKeepsPromise(source, target, fields, overwrite);
      config := target;
      for i := 0 to |fields|
        invariant config == CopyFields(source, target, fields[..i], overwrite)
      {
        assert fields[..i + 1][..i] == fields[..i];
        match fields[i] {
          case RetailField => if overwrite || config.retail.None? { config := config.(retail := source.retail); }
          case SupplyField => if overwrite || config.supply.None? { config := config.(supply := source.supply); }
          case ImageField => if overwrite || config.image.None? { config := config.(image := source.image); }
        }
      }
      assert fields[..|fields|] == fields;
    }

    method SetLocalInventory(spuId: string, c: Command, env: Env) returns (r: Result<Outcome>)
      requires c.SetStock?
      modifies this
      ensures (documents, r) == Next(old(documents), Call(spuId, c, env))
      ensures documents.Keys == old(documents).Keys && forall p | p in documents && p != spuId :: documents[p] == old(documents)[p]
      ensures spuId in documents && ValidCommandId(c.commandId) && c.quantity >= 0 ==> StocksAsPromised(old(documents)[spuId], documents[spuId], r, c)
    {
      if spuId in documents && c.quantity >= 0 { StockKeepsPromise(documents[spuId], c); }
      if !ValidCommandId(c.commandId) || c.quantity < 0 { return Err(ValidationFailed); }
      if spuId !in documents { return Err(NotFound); }
      var document := documents[spuId];
      assert documents[spuId := document] == documents;
      if HasReceipt(document.commands, c.commandId) { return Replay(document, c); }
      if !ActiveSku(document, c.sku) || c.sku !in document.inventories { return Err(NotFound); }
      var inventory := document.inventories[c.sku];
      if inventory.version != c.expected { return Err(VersionConflict); }
      inventory := Inventory(c.quantity, inventory.version + 1);
      var result := Stocked(c.sku, inventory.quantity, inventory.version);
      documents := documents[spuId := Recorded(document.(inventories := document.inventories[c.sku := inventory]), c, result)];
      r := Ok(result);
    }
  }
}
