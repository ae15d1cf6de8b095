/** All products of one scope: the commands as callers see them, and what holds over every run of them. */
module SkuCatalogue {
  import opened Basics
  import opened SkuCore
  import opened SkuDocument
  import opened SkuHistory

  type Catalogue = map<string, Document>

  datatype Call = Call(spuId: string, command: Command, env: Env)

  // ----- what a command must look like -----

  predicate ValidCommandId(id: string) { |id| <= 128 && exists i :: 0 <= i < |id| && !Space(id[i]) }

  predicate NamesDistinct(names: seq<string>) { (forall i | 0 <= i < |names| :: names[i] != "") && forall i, j | 0 <= i < j < |names| :: names[i] != names[j] }

  function DimensionNames(dims: seq<DimensionInput>): seq<string> { seq(|dims|, i requires 0 <= i < |dims| => dims[i].name) }

  function ValueNames(values: seq<ValueInput>): seq<string> { seq(|values|, i requires 0 <= i < |values| => values[i].name) }

  function ValueCounts(dims: seq<DimensionInput>): seq<nat> { seq(|dims|, i requires 0 <= i < |dims| => |dims[i].values|) }

  predicate ValidStructure(c: Command)
    requires c.Save?
  {
    && |c.dimensions| <= MAX_DIMENSIONS && NamesDistinct(DimensionNames(c.dimensions))
    && (forall i | 0 <= i < |c.dimensions| :: 1 <= |c.dimensions[i].values| <= MAX_VALUES_PER_DIMENSION && NamesDistinct(ValueNames(c.dimensions[i].values)))
    && Product(ValueCounts(c.dimensions)) <= MAX_COMBINATIONS && |c.combinations| <= MAX_COMBINATIONS
    && (c.dimensions == [] <==> c.combinations == [])
  }

  predicate TargetsDistinct(targets: seq<nat>) { forall i, j | 0 <= i < j < |targets| :: targets[i] != targets[j] }

  predicate WellFormed(c: Command) {
    ValidCommandId(c.commandId)
    && match c
       case Save(_, _, _, _, _, _) => ValidSpuCode(c.spuCode) && ValidStructure(c)
       case PatchSkus(_, _, _) => c.patches != []
       case CopySku(_, _, _, _, _) => c.fields != [] && c.targets != [] && TargetsDistinct(c.targets)
       case SetStock(_, _, _, _) => c.quantity >= 0
  }

  /** The code is registered for another product of the scope. */
  predicate Taken(cat: Catalogue, spuId: string, code: string) { exists p | p in cat :: p != spuId && cat[p].spuCode == code }

  function Transact(existing: Option<Document>, c: Command, env: Env): (Option<Document>, Result<Outcome>)
    requires c.SetStock? ==> c.quantity >= 0
  {
    if c.Save? then var (d, r) := SaveTx(existing, c, env); (Some(d), r)
    else if existing.None? then (None, Err(NotFound))
    else
      var (d, r) := match c
                    case PatchSkus(_, _, _) => PatchTx(existing.value, c)
                    case CopySku(_, _, _, _, _) => CopyTx(existing.value, c)
                    case SetStock(_, _, _, _) => StockTx(existing.value, c);
      (Some(d), r)
  }

  function Stored(cat: Catalogue, spuId: string): Option<Document> { if spuId in cat then Some(cat[spuId]) else None }

  function Next(cat: Catalogue, call: Call): (Catalogue, Result<Outcome>) {
    var c := call.command;
    if c.Save? && ValidCommandId(c.commandId) && ValidSpuCode(c.spuCode) && Taken(cat, call.spuId, c.spuCode) then (cat, Err(SpuCodeConflict))
    else if !WellFormed(c) then (cat, Err(ValidationFailed))
    else
      var (d, r) := Transact(Stored(cat, call.spuId), c, call.env);
      (if d.Some? then cat[call.spuId := d.value] else cat, r)
  }

  function Run(cat: Catalogue, calls: seq<Call>): Catalogue {
    if calls == [] then cat else Next(Run(cat, calls[..|calls| - 1]), calls[|calls| - 1]).0
  }

  // ----- invariant -----

  ghost predicate Inv(cat: Catalogue) {
    && (forall p | p in cat :: DocInv(cat[p]))
    && forall p, q | p in cat && q in cat && p != q :: cat[p].spuCode != cat[q].spuCode
  }

  /** Products are never removed and each evolves. */
  predicate AllEvolve(before: Catalogue, after: Catalogue) { forall p | p in before :: p in after && Evolves(before[p], after[p]) }

  lemma TransactKeeps(existing: Option<Document>, c: Command, env: Env)
    requires WellFormed(c) && (existing.Some? ==> DocInv(existing.value))
    ensures var d := Transact(existing, c, env).0;
            (d.Some? ==> DocInv(d.value)) && (existing.Some? ==> d.Some? && Evolves(existing.value, d.value))
    ensures existing.None? && Transact(existing, c, env).0.Some? ==> c.Save? && Transact(existing, c, env).0.value.spuCode == c.spuCode
  {
    if c.Save? {
      SaveKeeps(existing, c, env);
      if existing.None? { NewDocumentCode(c, env); }
    } else if existing.Some? {
      match c {
        case PatchSkus(_, _, _) => PatchKeeps(existing.value, c);
        case CopySku(_, _, _, _, _) => CopyKeeps(existing.value, c);
        case SetStock(_, _, _, _) => StockKeeps(existing.value, c);
      }
    }
  }

  lemma NewDocumentCode(c: Command, env: Env)
    requires c.Save?
    ensures SaveTx(None, c, env).0.spuCode == c.spuCode
  {
    SaveKeeps(Some(CreateDocument(c.spuCode)), c, env);
    assert SaveTx(None, c, env) == (if !IdsKnown(CreateDocument(c.spuCode), c) || (c.expectedStructure.Some? && c.expectedStructure.value != 0)
                                    then (CreateDocument(c.spuCode), SaveTx(None, c, env).1) else Rebuild(CreateDocument(c.spuCode), c, env));
    if !HasReceipt([], c.commandId) { RebuildKeeps(CreateDocument(c.spuCode), c, env); }
  }

  lemma StepKeeps(cat: Catalogue, call: Call)
    requires Inv(cat)
    ensures Inv(Next(cat, call).0) && AllEvolve(cat, Next(cat, call).0)
  {
    forall p | p in cat ensures Evolves(cat[p], cat[p]) { EvolvesRefl(cat[p]); }
    if WellFormed(call.command) { TransactKeeps(Stored(cat, call.spuId), call.command, call.env); }
  }

  lemma {:induction false} RunKeeps(cat: Catalogue, calls: seq<Call>)
    requires Inv(cat)
    ensures Inv(Run(cat, calls)) && AllEvolve(cat, Run(cat, calls))
  {
    forall p | p in cat ensures Evolves(cat[p], cat[p]) { EvolvesRefl(cat[p]); }
    if calls != [] {
      var n := |calls| - 1;
      var mid := Run(cat, calls[..n]);
      RunKeeps(cat, calls[..n]);
      StepKeeps(mid, calls[n]);
      forall p | p in cat ensures p in Run(cat, calls) && Evolves(cat[p], Run(cat, calls)[p]) { EvolvesTrans(cat[p], mid[p], Run(cat, calls)[p]); }
    }
  }

  // ----- SKU codes -----

  /** The codes issued so far, also to SKUs that were dropped or whose save failed. */
  ghost predicate EverIssued(cat: Catalogue, code: string) {
    exists p, n :: p in cat && 0 <= n < cat[p].nextSequence && FormatSkuCode(cat[p].spuCode, n) == Ok(code)
  }

  /** No two SKUs of a scope share a code. */
  lemma CodesAreUnique(calls: seq<Call>, p: string, i: nat, q: string, j: nat)
    requires var cat := Run(map[], calls);
             p in cat && i < |cat[p].skus| && q in cat && j < |cat[q].skus| && cat[p].skus[i].code == cat[q].skus[j].code
    ensures p == q && i == j
  {
    RunKeeps(map[], calls);
    var cat := Run(map[], calls);
    SkuCodeNamesItsOrigin(cat[p].spuCode, cat[p].skus[i].sequence, cat[q].spuCode, cat[q].skus[j].sequence);
    if p == q { DistinctAt(cat[p].skus, i, j); }
  }

  /** A code is issued once: a SKU whose code was ever issued before is the later form of a SKU that was
      there then. */
  lemma NoCodeIsIssuedTwice(cat: Catalogue, calls: seq<Call>, p: string, i: nat)
    requires Inv(cat) && p in Run(cat, calls) && i < |Run(cat, calls)[p].skus| && EverIssued(cat, Run(cat, calls)[p].skus[i].code)
    ensures p in cat && Descends(cat[p].skus, Run(cat, calls)[p].skus[i])
  {
    var after := Run(cat, calls);
    var s := after[p].skus[i];
    RunKeeps(cat, calls);
    var q, n :| q in cat && 0 <= n < cat[q].nextSequence && FormatSkuCode(cat[q].spuCode, n) == Ok(s.code);
    SkuCodeNamesItsOrigin(cat[q].spuCode, n, after[p].spuCode, s.sequence);
    assert Evolves(cat[q], after[q]);
    assert p == q;
    assert Evolves(cat[p], after[p]);
  }

  /** Sequences are bounded, only grow, and number the inventories. */
  lemma SequencesGrow(cat: Catalogue, calls: seq<Call>, p: string)
    requires Inv(cat) && p in cat
    ensures p in Run(cat, calls) && cat[p].nextSequence <= Run(cat, calls)[p].nextSequence <= 100
    ensures Distinct(Run(cat, calls)[p].skus) && forall s | s in Run(cat, calls)[p].skus :: s.sequence < Run(cat, calls)[p].nextSequence
  {
    RunKeeps(cat, calls);
    forall s | s in Run(cat, calls)[p].skus ensures s.sequence < Run(cat, calls)[p].nextSequence {
      var i :| 0 <= i < |Run(cat, calls)[p].skus| && Run(cat, calls)[p].skus[i] == s;
    }
  }

  // ----- commands -----

  lemma {:induction false} TheReceipt(commands: seq<Receipt>, i: nat)
    requires ReceiptsDistinct(commands) && i < |commands|
    ensures HasReceipt(commands, commands[i].fingerprint.commandId) && FindReceipt(commands, commands[i].fingerprint.commandId) == commands[i]
  {
    if i > 0 { TheReceipt(commands[1..], i - 1); }
  }

  lemma SuccessIsRecorded(existing: Option<Document>, c: Command, env: Env)
    requires WellFormed(c) && Transact(existing, c, env).1.Ok?
    ensures Transact(existing, c, env).0.Some?
    ensures Receipt(c, Transact(existing, c, env).1.value) in Transact(existing, c, env).0.value.commands
  {
  }

  lemma Replays(d: Document, c: Command, o: Outcome, c': Command, env: Env)
    requires DocInv(d) && Receipt(c, o) in d.commands && c'.commandId == c.commandId && WellFormed(c')
    requires c == c' && c.Save? ==> c.spuCode == d.spuCode
    ensures Transact(Some(d), c', env).0 == Some(d)
    ensures if c' == c then Transact(Some(d), c', env).1 == Ok(o) else Transact(Some(d), c', env).1.Err?
  {
    var i :| 0 <= i < |d.commands| && d.commands[i] == Receipt(c, o);
    TheReceipt(d.commands, i);
  }

  lemma SaveKeepsItsCode(existing: Option<Document>, c: Command, env: Env)
    requires WellFormed(c) && c.Save? && Transact(existing, c, env).1.Ok? && (existing.Some? ==> DocInv(existing.value))
    ensures Transact(existing, c, env).0.value.spuCode == c.spuCode
  {
    TransactKeeps(existing, c, env);
  }

  predicate Remembers(cat: Catalogue, p: string, c: Command, o: Outcome) {
    p in cat && Receipt(c, o) in cat[p].commands && (c.Save? ==> c.spuCode == cat[p].spuCode)
  }

  lemma SuccessIsRemembered(cat: Catalogue, call: Call, calls: seq<Call>)
    requires Inv(cat) && Next(cat, call).1.Ok?
    ensures WellFormed(call.command) && Remembers(Run(Next(cat, call).0, calls), call.spuId, call.command, Next(cat, call).1.value)
    ensures Inv(Run(Next(cat, call).0, calls))
  {
    var p, after := call.spuId, Next(cat, call).0;
    StepKeeps(cat, call);
    RunKeeps(after, calls);
    SuccessIsRecorded(Stored(cat, p), call.command, call.env);
    assert Evolves(after[p], Run(after, calls)[p]);
    if call.command.Save? { SaveKeepsItsCode(Stored(cat, p), call.command, call.env); }
  }

  lemma RememberedCall(cat: Catalogue, p: string, c: Command, o: Outcome, again: Call)
    requires Inv(cat) && WellFormed(c) && Remembers(cat, p, c, o) && again.spuId == p && again.command.commandId == c.commandId
    ensures Next(cat, again).0 == cat && if again.command == c then Next(cat, again).1 == Ok(o) else Next(cat, again).1.Err?
  {
    if WellFormed(again.command) {
      Replays(cat[p], c, o, again.command, again.env);
      assert Stored(cat, p) == Some(cat[p]) && cat[p := cat[p]] == cat;
    }
  }

  /** A command that succeeded changes nothing when it comes again, however much later: an equal one gets
      the recorded result, a different one under the same id is refused. */
  lemma CommandsTakeEffectOnce(cat: Catalogue, call: Call, calls: seq<Call>, again: Call)
    requires Inv(cat) && Next(cat, call).1.Ok? && again.spuId == call.spuId && again.command.commandId == call.command.commandId
    ensures var later := Run(Next(cat, call).0, calls);
            Next(later, again).0 == later &&
            if again.command == call.command then Next(later, again).1 == Next(cat, call).1 else Next(later, again).1.Err?
  {
    SuccessIsRemembered(cat, call, calls);
    RememberedCall(Run(Next(cat, call).0, calls), call.spuId, call.command, Next(cat, call).1.value, again);
  }

  // ----- versions -----

  predicate AtLeast(d: Document, q: nat, v: int) { q < d.nextSequence && forall i | 0 <= i < |d.skus| && d.skus[i].sequence == q :: d.skus[i].configVersion >= v }

  lemma AtLeastEvolves(before: Document, after: Document, q: nat, v: int)
    requires AtLeast(before, q, v) && Evolves(before, after)
    ensures AtLeast(after, q, v)
  {
    forall i | 0 <= i < |after.skus| && after.skus[i].sequence == q ensures after.skus[i].configVersion >= v {
      var j :| 0 <= j < |before.skus| && Later(before.skus[j], after.skus[i]);
    }
  }

  lemma SuccessfulPatch(s: Patching, patches: seq<Patch>, n: nat)
    requires n < |patches| && s.problem.None? && PatchOne(s, patches, n).problem.None?
    ensures var p := patches[n];
            HasSequence(s.doc.skus, p.sku) && FindSequence(s.doc.skus, p.sku).configVersion == p.expected
            && PatchedSku(FindSequence(s.doc.skus, p.sku), p).1.None?
            && PatchOne(s, patches, n).doc == s.doc.(skus := Replaced(s.doc.skus, PatchedSku(FindSequence(s.doc.skus, p.sku), p).0))
  {
  }

  lemma OnlyTheNewer(skus: seq<Sku>, s: Sku)
    requires Distinct(skus)
    ensures forall i | 0 <= i < |Replaced(skus, s)| && Replaced(skus, s)[i].sequence == s.sequence :: Replaced(skus, s)[i] == s
  {
    if skus != [] { ReplacedAt(skus, s, 0); }
    forall i | 0 <= i < |skus| ensures Replaced(skus, s)[i].sequence == s.sequence ==> Replaced(skus, s)[i] == s { ReplacedAt(skus, s, i); }
  }

  predicate VersionIs(skus: seq<Sku>, k: int, q: nat, v: int) { 0 <= k < |skus| && skus[k].sequence == q && skus[k].configVersion == v }

  /** The patch found the version it expected, and left a newer one. */
  lemma PatchedOnce(s: Patching, patches: seq<Patch>, n: nat) returns (k: nat)
    requires DocInv(s.doc) && n < |patches| && PatchOne(s, patches, n).problem.None? && s.problem.None?
    ensures VersionIs(s.doc.skus, k, patches[n].sku, patches[n].expected)
    ensures AtLeast(PatchOne(s, patches, n).doc, patches[n].sku, patches[n].expected + 1)
  {
    SuccessfulPatch(s, patches, n);
    var sku := FindSequence(s.doc.skus, patches[n].sku);
    k :| 0 <= k < |s.doc.skus| && s.doc.skus[k] == sku;
    assert SkuFits(s.doc, s.doc.skus[k]);
    PatchIsNewVersion(sku, patches[n]);
    OnlyTheNewer(s.doc.skus, PatchedSku(sku, patches[n]).0);
  }

  predicate VersionUpTo(skus: seq<Sku>, k: int, q: nat, v: int) { 0 <= k < |skus| && skus[k].sequence == q && skus[k].configVersion <= v }

  lemma {:induction false} PatchVersions(d: Document, patches: seq<Patch>, n: nat, i: nat) returns (k: nat)
    requires DocInv(d) && i < n <= |patches| && PatchAll(d, patches, n).problem.None?
    ensures VersionUpTo(d.skus, k, patches[i].sku, patches[i].expected)
    ensures AtLeast(PatchAll(d, patches, n).doc, patches[i].sku, patches[i].expected + 1)
  {
    var s := PatchAll(d, patches, n - 1);
    PatchAllKeeps(d, patches, n - 1);
    if i < n - 1 {
      k := PatchVersions(d, patches, n - 1, i);
      PatchOneKeeps(s, patches, n - 1);
      AtLeastEvolves(s.doc, PatchOne(s, patches, n - 1).doc, patches[i].sku, patches[i].expected + 1);
    } else {
      var j := PatchedOnce(s, patches, i);
      k := ComesFrom(d, s.doc, j);
    }
  }

  lemma ComesFrom(before: Document, after: Document, j: nat) returns (k: nat)
    requires DocInv(after) && Evolves(before, after) && before.nextSequence == after.nextSequence && j < |after.skus|
    ensures VersionUpTo(before.skus, k, after.skus[j].sequence, after.skus[j].configVersion)
  {
    assert SkuFits(after, after.skus[j]);
    k :| 0 <= k < |before.skus| && Later(before.skus[k], after.skus[j]);
  }

  /** Two successful patches of one SKU, with anything in between, never expect the same version: the
      later one expects a higher one. */
  lemma PatchesNeverShareAVersion(cat: Catalogue, p: string, c1: Command, env1: Env, calls: seq<Call>, c2: Command, i: nat, j: nat)
    requires Inv(cat) && p in cat && c1.PatchSkus? && c2.PatchSkus? && WellFormed(c1) && WellFormed(c2)
    requires !HasReceipt(cat[p].commands, c1.commandId) && Next(cat, Call(p, c1, env1)).1.Ok?
    requires var later := Run(Next(cat, Call(p, c1, env1)).0, calls);
             p in later && !HasReceipt(later[p].commands, c2.commandId) && PatchTx(later[p], c2).1.Ok?
    requires i < |c1.patches| && j < |c2.patches| && c1.patches[i].sku == c2.patches[j].sku
    ensures c1.patches[i].expected < c2.patches[j].expected
  {
    var after := Next(cat, Call(p, c1, env1)).0;
    var later := Run(after, calls);
    StepKeeps(cat, Call(p, c1, env1));
    RunKeeps(after, calls);
    var q := c1.patches[i].sku;
    var k1 := PatchVersions(cat[p], c1.patches, |c1.patches|, i);
    assert AtLeast(after[p], q, c1.patches[i].expected + 1);
    AtLeastEvolves(after[p], later[p], q, c1.patches[i].expected + 1);
    var k2 := PatchVersions(later[p], c2.patches, |c2.patches|, j);
  }
}
