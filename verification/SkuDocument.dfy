/**
 * The product document of sku-kit and the four commands on it. A SKU is named by the sequence it was
 * issued with; the random ids of new dimensions and values are given by the environment. A command that
 * fails half way still stores what it had changed, as the store does.
 */
module SkuDocument {
  import opened Basics
  import opened SkuCore
  import opened SkuAmount

  datatype SpecValue = SpecValue(id: string, archived: bool)
  datatype Dimension = Dimension(id: string, values: seq<SpecValue>, archived: bool)

  datatype Status = Disabled | Enabled | Retired
  datatype Config = Config(status: Status, retail: Option<string>, supply: Option<string>, image: Option<string>)
  datatype Sku = Sku(sequence: nat, code: string, key: seq<Pair>, pairs: seq<Pair>, config: Config, configVersion: nat, archived: bool)
  datatype Inventory = Inventory(quantity: nat, version: nat)

  datatype ValueInput = ValueInput(id: Option<string>, draftKey: Option<string>, name: string)
  datatype DimensionInput = DimensionInput(id: Option<string>, draftKey: Option<string>, name: string, values: seq<ValueInput>)
  datatype PairInput = PairInput(dimension: Option<string>, dimensionDraft: Option<string>, value: Option<string>, valueDraft: Option<string>)
  datatype Change = Keep | Clear | Set(value: string)
  datatype Patch = Patch(sku: nat, expected: int, retail: Change, supply: Change, image: Change, status: Option<Status>)
  datatype Field = RetailField | SupplyField | ImageField

  /** A command is its own fingerprint. Labels are given in normal form. */
  datatype Command =
    | Save(commandId: string, spuCode: string, expectedStructure: Option<int>, dimensions: seq<DimensionInput>,
           combinations: seq<seq<PairInput>>, restore: set<nat>)
    | PatchSkus(commandId: string, expectedStructure: Option<int>, patches: seq<Patch>)
    | CopySku(commandId: string, source: nat, targets: seq<nat>, fields: seq<Field>, overwrite: bool)
    | SetStock(commandId: string, sku: nat, expected: int, quantity: int)

  datatype SavedSku = SavedSku(sequence: nat, code: string, key: seq<Pair>, status: Status)
  datatype Configured = Configured(sequence: nat, code: string, config: Config, version: nat)
  datatype Outcome =
    | Saved(version: nat, skus: seq<SavedSku>, mappings: map<string, string>)
    | Patched(configured: seq<Configured>)
    | Stocked(sku: nat, quantity: nat, version: nat)

  datatype Receipt = Receipt(fingerprint: Command, outcome: Outcome)

  datatype Document = Document(spuCode: string, structureVersion: nat, nextSequence: nat, dimensions: seq<Dimension>,
                               skus: seq<Sku>, inventories: map<nat, Inventory>, commands: seq<Receipt>)

  /** Fresh ids for dimensions and their values, and the host's verdict on a mode change if it has a hook. */
  datatype Env = Env(dimensionIds: seq<string>, valueIds: seq<seq<string>>, approval: Option<bool>)

  function CreateDocument(spuCode: string): Document { Document(spuCode, 0, 0, [], [], map[], []) }

  // ----- receipts -----

  predicate HasReceipt(commands: seq<Receipt>, id: string) { exists i :: 0 <= i < |commands| && commands[i].fingerprint.commandId == id }

  function FindReceipt(commands: seq<Receipt>, id: string): (r: Receipt)
    requires HasReceipt(commands, id)
    ensures r in commands && r.fingerprint.commandId == id
  {
    if commands[0].fingerprint.commandId == id then commands[0] else FindReceipt(commands[1..], id)
  }

  function Replay(d: Document, c: Command): Result<Outcome>
    requires HasReceipt(d.commands, c.commandId)
  {
    var receipt := FindReceipt(d.commands, c.commandId);
    if receipt.fingerprint == c then Ok(receipt.outcome) else Err(IdempotencyConflict)
  }

  function Recorded(d: Document, c: Command, o: Outcome): Document { d.(commands := d.commands + [Receipt(c, o)]) }

  // ----- dimensions -----

  function FindDimension(dims: seq<Dimension>, id: string): (r: Option<Dimension>)
    ensures r.Some? ==> r.value in dims && r.value.id == id
    ensures r.None? ==> forall d | d in dims :: d.id != id
  {
    if dims == [] then None else if dims[0].id == id then Some(dims[0]) else FindDimension(dims[1..], id)
  }

  predicate HasValue(values: seq<SpecValue>, id: string) { exists i :: 0 <= i < |values| && values[i].id == id }

  function Previous(d: Document, i: DimensionInput): Option<Dimension> {
    match i.id
    case None => None
    case Some(id) => FindDimension(d.dimensions, id)
  }

  /** New dimensions, and new values of known dimensions, come with draft keys, not with ids. */
  predicate IdsKnown(d: Document, c: Command)
    requires c.Save?
  {
    forall i | 0 <= i < |c.dimensions| ::
      var input := c.dimensions[i];
      && (input.id.Some? ==> Previous(d, input).Some?)
      && (Previous(d, input).Some? ==>
            forall j | 0 <= j < |input.values| :: input.values[j].id.Some? ==> HasValue(Previous(d, input).value.values, input.values[j].id.value))
  }

  function At(ids: seq<string>, i: nat): string { if i < |ids| then ids[i] else "" }

  function ValueId(input: ValueInput, newId: string): string { if input.id.Some? then input.id.value else newId }

  function DimensionId(d: Document, input: DimensionInput, newId: string): string {
    if Previous(d, input).Some? then Previous(d, input).value.id else if input.id.Some? then input.id.value else newId
  }

  function NewValues(values: seq<ValueInput>, ids: seq<string>): seq<SpecValue> {
    seq(|values|, j requires 0 <= j < |values| => SpecValue(ValueId(values[j], At(ids, j)), false))
  }

  /** Old values that the new list no longer has. */
  function LeftValues(prior: seq<SpecValue>, now: seq<SpecValue>): seq<SpecValue> {
    if prior == [] then []
    else if HasValue(now, prior[0].id) then LeftValues(prior[1..], now)
    else var v := SpecValue(prior[0].id, true); [v] + LeftValues(prior[1..], now + [v])
  }

  function BuiltDimension(d: Document, input: DimensionInput, newId: string, valueIds: seq<string>): Dimension {
    var values := NewValues(input.values, valueIds);
    Dimension(DimensionId(d, input, newId), values + (if Previous(d, input).Some? then LeftValues(Previous(d, input).value.values, values) else []), false)
  }

  function Ids(env: Env, i: nat): seq<string> { if i < |env.valueIds| then env.valueIds[i] else [] }

  function KeptDimensions(d: Document, c: Command, env: Env): seq<Dimension>
    requires c.Save?
  {
    seq(|c.dimensions|, i requires 0 <= i < |c.dimensions| => BuiltDimension(d, c.dimensions[i], At(env.dimensionIds, i), Ids(env, i)))
  }

  function ArchivedValues(values: seq<SpecValue>): seq<SpecValue> {
    seq(|values|, j requires 0 <= j < |values| => values[j].(archived := true))
  }

  function LeftDimensions(prior: seq<Dimension>, now: seq<Dimension>): seq<Dimension> {
    if prior == [] then []
    else if FindDimension(now, prior[0].id).Some? then LeftDimensions(prior[1..], now)
    else var d := Dimension(prior[0].id, ArchivedValues(prior[0].values), true); [d] + LeftDimensions(prior[1..], now + [d])
  }

  function NewDimensions(d: Document, c: Command, env: Env): seq<Dimension>
    requires c.Save?
  {
    var kept := KeptDimensions(d, c, env);
    kept + LeftDimensions(d.dimensions, kept)
  }

  function Mapped(m: map<string, string>, draftKey: Option<string>, id: string): map<string, string> {
    if draftKey.Some? then m[draftKey.value := id] else m
  }

  function ValueMappings(m: map<string, string>, values: seq<ValueInput>, ids: seq<string>): map<string, string> {
    if values == [] then m else
      var n := |values| - 1;
      Mapped(ValueMappings(m, values[..n], ids), values[n].draftKey, ValueId(values[n], At(ids, n)))
  }

  /** The ids of the draft keys, dimension by dimension; a later key overrides an earlier one. */
  function Mappings(d: Document, inputs: seq<DimensionInput>, env: Env): map<string, string> {
    if inputs == [] then map[] else
      var n := |inputs| - 1;
      var m := Mapped(Mappings(d, inputs[..n], env), inputs[n].draftKey, DimensionId(d, inputs[n], At(env.dimensionIds, n)));
      ValueMappings(m, inputs[n].values, Ids(env, n))
  }

  // ----- resolving a combination -----

  function Lookup(id: Option<string>, draftKey: Option<string>, m: map<string, string>): Option<string> {
    if id.Some? then id else if draftKey.Some? && draftKey.value in m then Some(m[draftKey.value]) else None
  }

  predicate Referenced(p: PairInput, m: map<string, string>) {
    Lookup(p.dimension, p.dimensionDraft, m).Some? && Lookup(p.value, p.valueDraft, m).Some?
  }

  function PairOf(p: PairInput, m: map<string, string>): Pair
    requires Referenced(p, m)
  {
    Pair(Lookup(p.dimension, p.dimensionDraft, m).value, Lookup(p.value, p.valueDraft, m).value)
  }

  predicate InDimensions(p: Pair, dims: seq<Dimension>) {
    var dim := FindDimension(dims, p.dimension);
    dim.Some? && HasValue(dim.value.values, p.value)
  }

  /** One value of every dimension. */
  predicate Covers(pairs: seq<Pair>, dims: seq<Dimension>) {
    |pairs| == |dims| && DistinctDimensions(pairs) && forall i | 0 <= i < |pairs| :: InDimensions(pairs[i], dims)
  }

  function PairsOf(pairs: seq<PairInput>, m: map<string, string>): (r: seq<Pair>)
    requires forall i | 0 <= i < |pairs| :: Referenced(pairs[i], m)
    ensures |r| == |pairs| && forall i | 0 <= i < |pairs| :: r[i] == PairOf(pairs[i], m)
  {
    seq(|pairs|, i requires 0 <= i < |pairs| => PairOf(pairs[i], m))
  }

  function Resolve(pairs: seq<PairInput>, m: map<string, string>, dims: seq<Dimension>): Result<seq<Pair>> {
    if (forall i | 0 <= i < |pairs| :: Referenced(pairs[i], m)) && Covers(PairsOf(pairs, m), dims) then Ok(PairsOf(pairs, m))
    else Err(ValidationFailed)
  }

  // ----- allocating the SKUs of a save -----

  predicate HasKey(skus: seq<Sku>, key: seq<Pair>) { exists i :: 0 <= i < |skus| && skus[i].key == key }

  function FindKey(skus: seq<Sku>, key: seq<Pair>): (r: Sku)
    requires HasKey(skus, key)
    ensures r in skus && r.key == key
  {
    if skus[0].key == key then skus[0] else FindKey(skus[1..], key)
  }

  predicate HasSequence(skus: seq<Sku>, sequence: nat) { exists i :: 0 <= i < |skus| && skus[i].sequence == sequence }

  function FindSequence(skus: seq<Sku>, sequence: nat): (r: Sku)
    requires HasSequence(skus, sequence)
    ensures r in skus && r.sequence == sequence
  {
    if skus[0].sequence == sequence then skus[0] else FindSequence(skus[1..], sequence)
  }

  /** The loop variables while combinations turn into SKUs: the mutated document, the SKUs so far, the first problem. */
  datatype Allocation = Allocation(doc: Document, skus: seq<Sku>, problem: Option<Problem>)

  const NEW_CONFIG := Config(Disabled, None, None, None)

  function Issue(a: Allocation, pairs: seq<Pair>): Allocation {
    var n := a.doc.nextSequence;
    if n >= CAPACITY then a.(problem := Some(CapacityExhausted))
    else
      match FormatSkuCode(a.doc.spuCode, n)
      case Err(p) => a.(problem := Some(p))
      case Ok(code) =>
        Allocation(a.doc.(nextSequence := n + 1, inventories := a.doc.inventories[n := Inventory(0, 1)]),
                   a.skus + [Sku(n, code, CombinationKey(pairs), pairs, NEW_CONFIG, 1, false)], None)
  }

  function Restored(prior: Sku, pairs: seq<Pair>): Sku {
    prior.(pairs := pairs, archived := false, config := prior.config.(status := Disabled), configVersion := prior.configVersion + 1)
  }

  function AllocateOne(a: Allocation, combination: seq<PairInput>, m: map<string, string>, dims: seq<Dimension>, restore: set<nat>): Allocation {
    match Resolve(combination, m, dims)
    case Err(p) => a.(problem := Some(p))
    case Ok(pairs) =>
      var key := CombinationKey(pairs);
      if HasKey(a.skus, key) then a.(problem := Some(CombinationConflict))
      else if !HasKey(a.doc.skus, key) then Issue(a, pairs)
      else
        var prior := FindKey(a.doc.skus, key);
        if !prior.archived then a.(skus := a.skus + [prior.(pairs := pairs)])
        else if prior.sequence !in restore then a.(problem := Some(RestoreRequired))
        else a.(skus := a.skus + [Restored(prior, pairs)])
  }

  function Allocate(d: Document, combinations: seq<seq<PairInput>>, m: map<string, string>, dims: seq<Dimension>, restore: set<nat>): Allocation {
    if combinations == [] then Allocation(d, [], None) else
      var n := |combinations| - 1;
      var a := Allocate(d, combinations[..n], m, dims, restore);
      if a.problem.Some? then a else AllocateOne(a, combinations[n], m, dims, restore)
  }

  function ArchivedSku(s: Sku): Sku { s.(archived := true, config := s.config.(status := Retired), configVersion := s.configVersion + 1) }

  /** Active SKUs that the new list does not keep are archived; what was archived before and not restored is dropped. */
  function Departed(prior: seq<Sku>, kept: seq<Sku>): seq<Sku> {
    if prior == [] then []
    else (if prior[0].archived || HasSequence(kept, prior[0].sequence) then [] else [ArchivedSku(prior[0])]) + Departed(prior[1..], kept)
  }

  function SavedSkus(skus: seq<Sku>): seq<SavedSku> {
    seq(|skus|, i requires 0 <= i < |skus| => SavedSku(skus[i].sequence, skus[i].code, skus[i].key, skus[i].config.status))
  }

  predicate DefaultMode(d: Document) { exists i :: 0 <= i < |d.skus| && !d.skus[i].archived && d.skus[i].pairs == [] }

  predicate HasStock(d: Document) { exists n | n in d.inventories :: d.inventories[n].quantity != 0 }

  predicate Blocked(existing: Option<Document>, c: Command, approval: Option<bool>)
    requires c.Save?
  {
    existing.Some? && DefaultMode(existing.value) != (c.dimensions == [])
    && if approval.Some? then !approval.value else HasStock(existing.value)
  }

  function Combinations(c: Command): seq<seq<PairInput>>
    requires c.Save?
  {
    if c.dimensions == [] then [[]] else c.combinations
  }

  function Committed(a: Allocation, c: Command, dims: seq<Dimension>, m: map<string, string>): (Document, Outcome)
    requires c.Save?
  {
    var d := a.doc.(dimensions := dims, skus := a.skus + Departed(a.doc.skus, a.skus), structureVersion := a.doc.structureVersion + 1);
    var outcome := Saved(d.structureVersion, SavedSkus(a.skus), m);
    (Recorded(d, c, outcome), outcome)
  }

  function SaveTx(existing: Option<Document>, c: Command, env: Env): (Document, Result<Outcome>)
    requires c.Save?
  {
    var d := if existing.Some? then existing.value else CreateDocument(c.spuCode);
    if d.spuCode != c.spuCode then (d, Err(SpuCodeMismatch))
    else if HasReceipt(d.commands, c.commandId) then (d, Replay(d, c))
    else if c.expectedStructure.Some? && c.expectedStructure.value != d.structureVersion then (d, Err(VersionConflict))
    else if !IdsKnown(d, c) then (d, Err(ValidationFailed))
    else if Blocked(existing, c, env.approval) then (d, Err(TransitionBlocked))
    else Rebuild(d, c, env)
  }

  /** The save once all checks passed: nothing of it is taken back when a combination fails. */
  function Rebuild(d: Document, c: Command, env: Env): (Document, Result<Outcome>)
    requires c.Save?
  {
    var m, dims := Mappings(d, c.dimensions, env), NewDimensions(d, c, env);
    var a := Allocate(d, Combinations(c), m, dims, c.restore);
    if a.problem.Some? then (a.doc, Err(a.problem.value))
    else var (d', outcome) := Committed(a, c, dims, m); (d', Ok(outcome))
  }

  // ----- patching -----

  function Replaced(skus: seq<Sku>, sku: Sku): seq<Sku> {
    if skus == [] then [] else if skus[0].sequence == sku.sequence then [sku] + skus[1..] else [skus[0]] + Replaced(skus[1..], sku)
  }

  predicate BadPrice(c: Change) { c.Set? && !ValidAmount(c.value) }

  function Priced(prior: Option<string>, c: Change): Option<string>
    requires !BadPrice(c)
  {
    match c case Keep => prior case Clear => None case Set(v) => Some(ValidateCnyAmount(v).value)
  }

  /** The SKU after one patch, and the problem that stopped the patch half way. */
  function PatchedSku(s: Sku, p: Patch): (Sku, Option<Problem>) {
    if BadPrice(p.retail) then (s, Some(ValidationFailed)) else
      var s1 := s.(config := s.config.(retail := Priced(s.config.retail, p.retail)));
      if BadPrice(p.supply) then (s1, Some(ValidationFailed)) else
        var config := s1.config.(supply := Priced(s1.config.supply, p.supply),
                                 image := match p.image case Keep => s1.config.image case Clear => None case Set(v) => Some(v),
                                 status := if p.status.Some? then p.status.value else s1.config.status);
        (s1.(config := config, configVersion := s1.configVersion + 1), None)
  }

  function View(s: Sku): Configured { Configured(s.sequence, s.code, s.config, s.configVersion) }

  datatype Patching = Patching(doc: Document, affected: seq<Configured>, problem: Option<Problem>)

  predicate Repeats(patches: seq<Patch>, n: nat)
    requires n < |patches|
  {
    exists i :: 0 <= i < n && patches[i].sku == patches[n].sku
  }

  function PatchOne(s: Patching, patches: seq<Patch>, n: nat): Patching
    requires n < |patches|
  {
    var p := patches[n];
    if Repeats(patches, n) then s.(problem := Some(ValidationFailed))
    else if !HasSequence(s.doc.skus, p.sku) || FindSequence(s.doc.skus, p.sku).archived then s.(problem := Some(NotFound))
    else
      var sku := FindSequence(s.doc.skus, p.sku);
      if sku.configVersion != p.expected then s.(problem := Some(VersionConflict))
      else
        var (sku', problem) := PatchedSku(sku, p);
        Patching(s.doc.(skus := Replaced(s.doc.skus, sku')), if problem.Some? then s.affected else s.affected + [View(sku')], problem)
  }

  function PatchAll(d: Document, patches: seq<Patch>, n: nat): Patching
    requires n <= |patches|
  {
    if n == 0 then Patching(d, [], None) else
      var s := PatchAll(d, patches, n - 1);
      if s.problem.Some? then s else PatchOne(s, patches, n - 1)
  }

  function PatchTx(d: Document, c: Command): (Document, Result<Outcome>)
    requires c.PatchSkus?
  {
    if HasReceipt(d.commands, c.commandId) then (d, Replay(d, c))
    else if c.expectedStructure.Some? && c.expectedStructure.value != d.structureVersion then (d, Err(VersionConflict))
    else
      var s := PatchAll(d, c.patches, |c.patches|);
      if s.problem.Some? then (s.doc, Err(s.problem.value))
      else (Recorded(s.doc, c, Patched(s.affected)), Ok(Patched(s.affected)))
  }

  // ----- copying -----

  function CopyField(source: Config, target: Config, f: Field, overwrite: bool): Config {
    match f
    case RetailField => if overwrite || target.retail.None? then target.(retail := source.retail) else target
    case SupplyField => if overwrite || target.supply.None? then target.(supply := source.supply) else target
    case ImageField => if overwrite || target.image.None? then target.(image := source.image) else target
  }

  function CopyFields(source: Config, target: Config, fields: seq<Field>, overwrite: bool): Config {
    if fields == [] then target
    else CopyField(source, CopyFields(source, target, fields[..|fields| - 1], overwrite), fields[|fields| - 1], overwrite)
  }

  predicate ActiveSku(d: Document, sequence: nat) { exists i :: 0 <= i < |d.skus| && d.skus[i].sequence == sequence && !d.skus[i].archived }

  function FindActive(skus: seq<Sku>, sequence: nat): (r: Sku)
    requires exists i :: 0 <= i < |skus| && skus[i].sequence == sequence && !skus[i].archived
    ensures r in skus && r.sequence == sequence && !r.archived
  {
    if skus[0].sequence == sequence && !skus[0].archived then skus[0] else FindActive(skus[1..], sequence)
  }

  function CopiedSku(prior: Sku, source: Config, c: Command): Sku
    requires c.CopySku?
  {
    prior.(config := CopyFields(source, prior.config, c.fields, c.overwrite), configVersion := prior.configVersion + 1)
  }

  function CopyTo(s: Patching, source: Config, target: nat, c: Command): Patching
    requires c.CopySku?
  {
    if !ActiveSku(s.doc, target) then s else
      var sku := CopiedSku(FindActive(s.doc.skus, target), source, c);
      Patching(s.doc.(skus := Replaced(s.doc.skus, sku)), s.affected + [View(sku)], None)
  }

  function CopyAll(d: Document, source: Config, targets: seq<nat>, c: Command): Patching
    requires c.CopySku?
  {
    if targets == [] then Patching(d, [], None) else CopyTo(CopyAll(d, source, targets[..|targets| - 1], c), source, targets[|targets| - 1], c)
  }

  function CopyTx(d: Document, c: Command): (Document, Result<Outcome>)
    requires c.CopySku?
  {
    if HasReceipt(d.commands, c.commandId) then (d, Replay(d, c))
    else if !ActiveSku(d, c.source) then (d, Err(NotFound))
    else if (exists i :: 0 <= i < |c.targets| && !ActiveSku(d, c.targets[i])) || c.source in c.targets then (d, Err(ValidationFailed))
    else
      var s := CopyAll(d, FindActive(d.skus, c.source).config, c.targets, c);
      (Recorded(s.doc, c, Patched(s.affected)), Ok(Patched(s.affected)))
  }

  // ----- local inventory -----

  function Restocked(d: Document, n: nat, stock: Inventory): Document { d.(inventories := d.inventories[n := stock]) }

  function StockTx(d: Document, c: Command): (Document, Result<Outcome>)
    requires c.SetStock? && c.quantity >= 0
  {
    if HasReceipt(d.commands, c.commandId) then (d, Replay(d, c))
    else if !ActiveSku(d, c.sku) || c.sku !in d.inventories then (d, Err(NotFound))
    else if d.inventories[c.sku].version != c.expected then (d, Err(VersionConflict))
    else
      var stock := Inventory(c.quantity, d.inventories[c.sku].version + 1);
      var outcome := Stocked(c.sku, stock.quantity, stock.version);
      (Recorded(Restocked(d, c.sku, stock), c, outcome), Ok(outcome))
  }
}
