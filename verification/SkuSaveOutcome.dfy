/** Which saves and patches succeed, and what the ones that fail leave behind, told from the command and the document. */
module SkuSaveOutcome {
  import opened Basics
  import opened SkuCore
  import opened SkuDocument
  import opened SkuHistory
  import opened SkuCatalogue
  import opened SkuStructure

  // ----- what the command asks for -----

  /** The document a save starts from. */
  function Base(existing: Option<Document>, c: Command): Document
    requires c.Save?
  {
    if existing.Some? then existing.value else CreateDocument(c.spuCode)
  }

  /** The checks before the first combination is looked at. */
  predicate ChecksPass(existing: Option<Document>, c: Command, env: Env)
    requires c.Save?
  {
    var d := Base(existing, c);
    && d.spuCode == c.spuCode && !HasReceipt(d.commands, c.commandId)
    && (c.expectedStructure.Some? ==> c.expectedStructure.value == d.structureVersion)
    && IdsKnown(d, c) && !Blocked(existing, c, env.approval)
  }

  /** The key of a combination, if it names one known value of every dimension. */
  function KeyOf(combination: seq<PairInput>, m: map<string, string>, dims: seq<Dimension>): Option<seq<Pair>> {
    var r := Resolve(combination, m, dims);
    if r.Ok? then Some(CombinationKey(r.value)) else None
  }

  /** The combination exists and no stored SKU, active or archived, has it. */
  predicate Fresh(d: Document, combination: seq<PairInput>, m: map<string, string>, dims: seq<Dimension>) {
    KeyOf(combination, m, dims).Some? && !HasKey(d.skus, KeyOf(combination, m, dims).value)
  }

  function FreshCount(d: Document, combinations: seq<seq<PairInput>>, m: map<string, string>, dims: seq<Dimension>): nat {
    if combinations == [] then 0 else
      var n := |combinations| - 1;
      FreshCount(d, combinations[..n], m, dims) + if Fresh(d, combinations[n], m, dims) then 1 else 0
  }

  predicate Repeated(combinations: seq<seq<PairInput>>, m: map<string, string>, dims: seq<Dimension>, j: nat)
    requires j < |combinations|
  {
    exists i :: 0 <= i < j && KeyOf(combinations[i], m, dims) == KeyOf(combinations[j], m, dims)
  }

  /** A new SKU needs a sequence that is left and a product code that can carry it. */
  predicate NoCodeLeft(d: Document, issued: nat) { d.nextSequence + issued >= CAPACITY || !ValidSpuCode(d.spuCode) }

  predicate NotRestored(d: Document, key: seq<Pair>, restore: set<nat>) {
    HasKey(d.skus, key) && FindKey(d.skus, key).archived && FindKey(d.skus, key).sequence !in restore
  }

  /** The combination cannot be had: unknown, asked for twice, without a code for it, or archived and not restored. */
  predicate Refused(d: Document, combinations: seq<seq<PairInput>>, m: map<string, string>, dims: seq<Dimension>,
      restore: set<nat>, j: nat)
    requires j < |combinations|
  {
    match KeyOf(combinations[j], m, dims)
    case None => true
    case Some(key) =>
      || Repeated(combinations, m, dims, j) || NotRestored(d, key, restore)
      || (Fresh(d, combinations[j], m, dims) && NoCodeLeft(d, FreshCount(d, combinations[..j], m, dims)))
  }

  // ----- one combination -----

  /** The combination can be had in this state of the loop. */
  predicate Takes(a: Allocation, key: seq<Pair>, restore: set<nat>) {
    !HasKey(a.skus, key) && if HasKey(a.doc.skus, key) then !NotRestored(a.doc, key, restore) else !NoCodeLeft(a.doc, 0)
  }

  /** One more live SKU, with this key, after the ones so far. */
  predicate Added(a: Allocation, b: Allocation, key: seq<Pair>) {
    && b.problem == None && |b.skus| == |a.skus| + 1 && b.skus[..|a.skus|] == a.skus
    && b.skus[|a.skus|].key == key && !b.skus[|a.skus|].archived
  }

  /** The code of a SKU: the product code and the two digits of its sequence. */
  predicate CodeOf(spuCode: string, n: nat, code: string) {
    && 0 <= n <= 99 && |code| == |spuCode| + 2 && code[..|spuCode|] == spuCode
    && '0' <= code[|spuCode|] <= '9' && '0' <= code[|spuCode| + 1] <= '9'
    && n == 10 * (code[|spuCode|] - '0') as nat + (code[|spuCode| + 1] - '0') as nat
  }

  lemma CodeIs(spuCode: string, n: nat)
    ensures FormatSkuCode(spuCode, n).Ok? <==> ValidSpuCode(spuCode) && n <= 99
    ensures FormatSkuCode(spuCode, n).Ok? ==> CodeOf(spuCode, n, FormatSkuCode(spuCode, n).value)
  {
  }

  /** It is the stored SKU of that key, with the pairs asked for, and no sequence is used. What is configured stays,
      but what is restored starts disabled, under its next version. */
  predicate KeepsStored(a: Allocation, b: Allocation, pairs: seq<Pair>)
    requires HasKey(a.doc.skus, CombinationKey(pairs))
  {
    var prior := FindKey(a.doc.skus, CombinationKey(pairs));
    && b.problem == None && b.doc == a.doc
    && b.skus == a.skus + [prior.(pairs := pairs, archived := false,
                                  config := if prior.archived then prior.config.(status := Disabled) else prior.config,
                                  configVersion := if prior.archived then prior.configVersion + 1 else prior.configVersion)]
  }

  /** It is a new SKU under the next sequence, disabled and without prices, with an empty inventory. */
  predicate IssuesNext(a: Allocation, b: Allocation, pairs: seq<Pair>) {
    var n := a.doc.nextSequence;
    && b.problem == None && |b.skus| == |a.skus| + 1
    && var code := b.skus[|a.skus|].code;
       && CodeOf(a.doc.spuCode, n, code)
       && b.skus == a.skus + [Sku(n, code, CombinationKey(pairs), pairs, Config(Disabled, None, None, None), 1, false)]
       && b.doc == a.doc.(nextSequence := n + 1, inventories := a.doc.inventories[n := Inventory(0, 1)])
  }

  /** Why the loop stops here. */
  function Refusal(a: Allocation, combination: seq<PairInput>, m: map<string, string>, dims: seq<Dimension>): Problem {
    match KeyOf(combination, m, dims)
    case None => ValidationFailed
    case Some(key) =>
      if HasKey(a.skus, key) then CombinationConflict
      else if HasKey(a.doc.skus, key) then RestoreRequired
      else if a.doc.nextSequence >= 100 then CapacityExhausted else ValidationFailed
  }

  /** A combination keeps or restores its stored SKU, gets a new one, or stops the loop with everything else as it was. */
  predicate Handles(a: Allocation, b: Allocation, combination: seq<PairInput>, m: map<string, string>,
      dims: seq<Dimension>, restore: set<nat>) {
    var key := KeyOf(combination, m, dims);
    if key.None? || !Takes(a, key.value, restore) then b == a.(problem := Some(Refusal(a, combination, m, dims)))
    else if HasKey(a.doc.skus, key.value) then KeepsStored(a, b, Resolve(combination, m, dims).value)
    else IssuesNext(a, b, Resolve(combination, m, dims).value)
  }

  lemma IssueIsNext(a: Allocation, pairs: seq<Pair>)
    requires a.problem == None
    ensures if NoCodeLeft(a.doc, 0) then Issue(a, pairs) == a.(problem := Some(if a.doc.nextSequence >= 100 then CapacityExhausted else ValidationFailed))
            else IssuesNext(a, Issue(a, pairs), pairs)
  {
    CodeIs(a.doc.spuCode, a.doc.nextSequence);
  }

  lemma AllocateOneHandles(a: Allocation, combination: seq<PairInput>, m: map<string, string>, dims: seq<Dimension>,
      restore: set<nat>)
    requires a.problem == None
    ensures Handles(a, AllocateOne(a, combination, m, dims, restore), combination, m, dims, restore)
  {
    var r := Resolve(combination, m, dims);
    if r.Ok? && !HasKey(a.doc.skus, CombinationKey(r.value)) { IssueIsNext(a, r.value); }
  }

  // ----- all combinations -----

  /** One live SKU for each combination, with its key. */
  predicate HasSkuEach(skus: seq<Sku>, combinations: seq<seq<PairInput>>, m: map<string, string>, dims: seq<Dimension>) {
    |skus| == |combinations| && forall i | 0 <= i < |combinations| :: !skus[i].archived && Some(skus[i].key) == KeyOf(combinations[i], m, dims)
  }

  /** A new sequence for each fresh combination, and nothing else of the document moves. */
  predicate CountsFresh(after: Document, d: Document, issued: nat) {
    && after == d.(nextSequence := d.nextSequence + issued, inventories := after.inventories)
    && (issued == 0 ==> after == d)
  }

  /** After combinations that can all be had. */
  predicate Allocated(a: Allocation, d: Document, combinations: seq<seq<PairInput>>, m: map<string, string>,
      dims: seq<Dimension>) {
    a.problem == None && HasSkuEach(a.skus, combinations, m, dims) && CountsFresh(a.doc, d, FreshCount(d, combinations, m, dims))
  }

  lemma KeysSoFar(a: Allocation, d: Document, combinations: seq<seq<PairInput>>, m: map<string, string>,
      dims: seq<Dimension>, n: nat)
    requires n < |combinations| && Allocated(a, d, combinations[..n], m, dims) && KeyOf(combinations[n], m, dims).Some?
    ensures HasKey(a.skus, KeyOf(combinations[n], m, dims).value) <==> Repeated(combinations, m, dims, n)
  {
    assert forall i | 0 <= i < n :: combinations[..n][i] == combinations[i];
    var key := KeyOf(combinations[n], m, dims).value;
    if HasKey(a.skus, key) {
      var i :| 0 <= i < |a.skus| && a.skus[i].key == key;
      assert KeyOf(combinations[i], m, dims) == KeyOf(combinations[n], m, dims);
    }
    if Repeated(combinations, m, dims, n) {
      var i :| 0 <= i < n && KeyOf(combinations[i], m, dims) == KeyOf(combinations[n], m, dims);
      assert a.skus[i].key == key;
    }
  }

  /** The loop takes a combination exactly when the command and the document allow it. */
  lemma TakesIff(a: Allocation, d: Document, combinations: seq<seq<PairInput>>, m: map<string, string>,
      dims: seq<Dimension>, restore: set<nat>, n: nat)
    requires n < |combinations| && Allocated(a, d, combinations[..n], m, dims)
    ensures Refused(d, combinations, m, dims, restore, n) <==>
              KeyOf(combinations[n], m, dims).None? || !Takes(a, KeyOf(combinations[n], m, dims).value, restore)
  {
    if KeyOf(combinations[n], m, dims).Some? { KeysSoFar(a, d, combinations, m, dims, n); }
  }

  lemma HandledIsAdded(a: Allocation, b: Allocation, combination: seq<PairInput>, m: map<string, string>,
      dims: seq<Dimension>, restore: set<nat>)
    requires Handles(a, b, combination, m, dims, restore) && KeyOf(combination, m, dims).Some? && Takes(a, KeyOf(combination, m, dims).value, restore)
    ensures Added(a, b, KeyOf(combination, m, dims).value)
  {
  }

  lemma AddedHasSkuEach(a: Allocation, b: Allocation, combinations: seq<seq<PairInput>>, m: map<string, string>,
      dims: seq<Dimension>, n: nat, key: seq<Pair>)
    requires n < |combinations| && HasSkuEach(a.skus, combinations[..n], m, dims) && Added(a, b, key) && KeyOf(combinations[n], m, dims) == Some(key)
    ensures HasSkuEach(b.skus, combinations[..n + 1], m, dims)
  {
    forall i | 0 <= i <= n ensures !b.skus[i].archived && Some(b.skus[i].key) == KeyOf(combinations[..n + 1][i], m, dims) {
      if i < n { assert b.skus[i] == b.skus[..|a.skus|][i] && combinations[..n][i] == combinations[i]; }
    }
  }

  lemma FreshCountNext(d: Document, combinations: seq<seq<PairInput>>, m: map<string, string>, dims: seq<Dimension>, n: nat)
    requires n < |combinations|
    ensures FreshCount(d, combinations[..n + 1], m, dims)
            == FreshCount(d, combinations[..n], m, dims) + if Fresh(d, combinations[n], m, dims) then 1 else 0
  {
    assert combinations[..n + 1][..n] == combinations[..n] && combinations[..n + 1][n] == combinations[n];
  }

  lemma TakenIsAllocated(a: Allocation, b: Allocation, d: Document, combinations: seq<seq<PairInput>>, m: map<string,
      string>, dims: seq<Dimension>, restore: set<nat>, n: nat)
    requires n < |combinations| && Allocated(a, d, combinations[..n], m, dims) && Handles(a, b, combinations[n], m, dims, restore)
    requires KeyOf(combinations[n], m, dims).Some? && Takes(a, KeyOf(combinations[n], m, dims).value, restore)
    ensures Allocated(b, d, combinations[..n + 1], m, dims)
  {
    HandledIsAdded(a, b, combinations[n], m, dims, restore);
    AddedHasSkuEach(a, b, combinations, m, dims, n, KeyOf(combinations[n], m, dims).value);
    FreshCountNext(d, combinations, m, dims, n);
    TakenCountsFresh(a, b, d, FreshCount(d, combinations[..n], m, dims), combinations[n], m, dims, restore);
  }

  lemma TakenCountsFresh(a: Allocation, b: Allocation, d: Document, issued: nat, combination: seq<PairInput>,
      m: map<string, string>, dims: seq<Dimension>, restore: set<nat>)
    requires CountsFresh(a.doc, d, issued) && Handles(a, b, combination, m, dims, restore)
    requires KeyOf(combination, m, dims).Some? && Takes(a, KeyOf(combination, m, dims).value, restore)
    ensures CountsFresh(b.doc, d, issued + if Fresh(d, combination, m, dims) then 1 else 0)
  {
    assert a.doc.skus == d.skus;
  }

  predicate NoneRefused(d: Document, combinations: seq<seq<PairInput>>, m: map<string, string>, dims: seq<Dimension>,
      restore: set<nat>, n: nat)
    requires n <= |combinations|
  {
    forall j | 0 <= j < n :: !Refused(d, combinations, m, dims, restore, j)
  }

  /** The first combination that cannot be had is the k-th, and everything before it was done. */
  predicate StoppedAt(a: Allocation, d: Document, combinations: seq<seq<PairInput>>, m: map<string, string>,
      dims: seq<Dimension>, restore: set<nat>, k: nat)
    requires k < |combinations|
  {
    && NoneRefused(d, combinations, m, dims, restore, k) && Refused(d, combinations, m, dims, restore, k)
    && a.problem.Some? && Allocated(a.(problem := None), d, combinations[..k], m, dims)
  }

  predicate LoopAt(a: Allocation, d: Document, combinations: seq<seq<PairInput>>, m: map<string, string>,
      dims: seq<Dimension>, restore: set<nat>, n: nat)
    requires n <= |combinations|
  {
    if NoneRefused(d, combinations, m, dims, restore, n) then Allocated(a, d, combinations[..n], m, dims)
    else exists k :: 0 <= k < n && StoppedAt(a, d, combinations, m, dims, restore, k)
  }

  lemma LoopGoesOn(a: Allocation, b: Allocation, d: Document, combinations: seq<seq<PairInput>>, m: map<string,
      string>, dims: seq<Dimension>, restore: set<nat>, n: nat)
    requires n < |combinations| && NoneRefused(d, combinations, m, dims, restore, n) && Allocated(a, d, combinations[..n], m, dims)
    requires Handles(a, b, combinations[n], m, dims, restore)
    ensures LoopAt(b, d, combinations, m, dims, restore, n + 1)
  {
    TakesIff(a, d, combinations, m, dims, restore, n);
    if Refused(d, combinations, m, dims, restore, n) {
      assert b.(problem := None) == a;
      assert StoppedAt(b, d, combinations, m, dims, restore, n);
    } else {
      TakenIsAllocated(a, b, d, combinations, m, dims, restore, n);
    }
  }

  lemma LoopStep(a: Allocation, b: Allocation, d: Document, combinations: seq<seq<PairInput>>, m: map<string,
      string>, dims: seq<Dimension>, restore: set<nat>, n: nat)
    requires n < |combinations| && LoopAt(a, d, combinations, m, dims, restore, n)
    requires if a.problem.Some? then b == a else Handles(a, b, combinations[n], m, dims, restore)
    ensures LoopAt(b, d, combinations, m, dims, restore, n + 1)
  {
    if NoneRefused(d, combinations, m, dims, restore, n) {
      LoopGoesOn(a, b, d, combinations, m, dims, restore, n);
    } else {
      var k :| 0 <= k < n && StoppedAt(a, d, combinations, m, dims, restore, k);
      assert StoppedAt(b, d, combinations, m, dims, restore, k) && !NoneRefused(d, combinations, m, dims, restore, n + 1);
    }
  }

  lemma {:induction false} LoopFollows(d: Document, combinations: seq<seq<PairInput>>, m: map<string, string>,
      dims: seq<Dimension>, restore: set<nat>, n: nat)
    requires n <= |combinations|
    ensures LoopAt(Allocate(d, combinations[..n], m, dims, restore), d, combinations, m, dims, restore, n)
  {
    if n > 0 {
      var a := Allocate(d, combinations[..n - 1], m, dims, restore);
      LoopFollows(d, combinations, m, dims, restore, n - 1);
      assert combinations[..n][..n - 1] == combinations[..n - 1];
      if a.problem.None? { AllocateOneHandles(a, combinations[n - 1], m, dims, restore); }
      LoopStep(a, Allocate(d, combinations[..n], m, dims, restore), d, combinations, m, dims, restore, n - 1);
    }
  }

  predicate AnyFresh(d: Document, combinations: seq<seq<PairInput>>, m: map<string, string>, dims: seq<Dimension>, n: nat)
    requires n <= |combinations|
  {
    exists j :: 0 <= j < n && Fresh(d, combinations[j], m, dims)
  }

  lemma AnyFreshNext(d: Document, combinations: seq<seq<PairInput>>, m: map<string, string>, dims: seq<Dimension>, n: nat)
    requires n < |combinations|
    ensures AnyFresh(d, combinations, m, dims, n + 1) <==> AnyFresh(d, combinations, m, dims, n) || Fresh(d, combinations[n], m, dims)
  {
  }

  lemma {:induction false} FreshCounted(d: Document, combinations: seq<seq<PairInput>>, m: map<string, string>,
      dims: seq<Dimension>, n: nat)
    requires n <= |combinations|
    ensures FreshCount(d, combinations[..n], m, dims) > 0 <==> AnyFresh(d, combinations, m, dims, n)
  {
    if n > 0 {
      FreshCounted(d, combinations, m, dims, n - 1);
      FreshCountNext(d, combinations, m, dims, n - 1);
      AnyFreshNext(d, combinations, m, dims, n - 1);
    }
  }

  // ----- saves -----

  /** Every requested combination can be had. */
  predicate AllCanBeHad(d: Document, c: Command, env: Env)
    requires c.Save?
  {
    NoneRefused(d, Combinations(c), Mappings(d, c.dimensions, env), NewDimensions(d, c, env), c.restore, |Combinations(c)|)
  }

  /** The k-th requested combination is new to the document, and it and everything before it can be had. */
  predicate IssuesAt(d: Document, c: Command, env: Env, k: nat)
    requires c.Save? && k < |Combinations(c)|
  {
    && Fresh(d, Combinations(c)[k], Mappings(d, c.dimensions, env), NewDimensions(d, c, env))
    && NoneRefused(d, Combinations(c), Mappings(d, c.dimensions, env), NewDimensions(d, c, env), c.restore, k + 1)
  }

  /** A save that is not a replay succeeds exactly when its checks pass and every combination can be had. */
  lemma SaveSucceedsIff(existing: Option<Document>, c: Command, env: Env)
    requires c.Save? && !HasReceipt(Base(existing, c).commands, c.commandId)
    ensures SaveTx(existing, c, env).1.Ok? <==> ChecksPass(existing, c, env) && AllCanBeHad(Base(existing, c), c, env)
  {
    if ChecksPass(existing, c, env) { RebuildLoop(Base(existing, c), c, env); }
  }

  lemma RebuildLoop(d: Document, c: Command, env: Env)
    requires c.Save?
    ensures var combinations := Combinations(c);
            LoopAt(Allocate(d, combinations, Mappings(d, c.dimensions, env), NewDimensions(d, c, env), c.restore),
                   d, combinations, Mappings(d, c.dimensions, env), NewDimensions(d, c, env), c.restore, |combinations|)
  {
    var combinations := Combinations(c);
    LoopFollows(d, combinations, Mappings(d, c.dimensions, env), NewDimensions(d, c, env), c.restore, |combinations|);
    assert combinations[..|combinations|] == combinations;
  }

  /**
   * A failed save is a no-op unless its checks pass and, before the first combination that cannot be had, it
   * asks for one that no stored SKU has. That one's sequence is then gone.
   */
  lemma FailedSaveChangesIff(existing: Option<Document>, c: Command, env: Env)
    requires c.Save? && SaveTx(existing, c, env).1.Err?
    ensures SaveTx(existing, c, env).0 != Base(existing, c) <==>
              ChecksPass(existing, c, env) && exists k :: 0 <= k < |Combinations(c)| && IssuesAt(Base(existing, c), c, env, k)
  {
    var d := Base(existing, c);
    if ChecksPass(existing, c, env) {
      RebuildLoop(d, c, env);
      FailedLoopChangesIff(d, c, env, Allocate(d, Combinations(c), Mappings(d, c.dimensions, env), NewDimensions(d, c, env), c.restore));
    }
  }

  lemma FailedLoopChangesIff(d: Document, c: Command, env: Env, a: Allocation)
    requires c.Save? && a.problem.Some?
    requires LoopAt(a, d, Combinations(c), Mappings(d, c.dimensions, env), NewDimensions(d, c, env), c.restore, |Combinations(c)|)
    ensures a.doc != d <==> exists k :: 0 <= k < |Combinations(c)| && IssuesAt(d, c, env, k)
  {
    var combinations, m, dims := Combinations(c), Mappings(d, c.dimensions, env), NewDimensions(d, c, env);
    var k :| 0 <= k < |combinations| && StoppedAt(a, d, combinations, m, dims, c.restore, k);
    StoppedChangesIff(a, d, combinations, m, dims, c.restore, k);
    if j :| 0 <= j < k && Fresh(d, combinations[j], m, dims) { assert IssuesAt(d, c, env, j); }
    if j :| 0 <= j < |combinations| && IssuesAt(d, c, env, j) { assert j < k; }
  }

  lemma StoppedChangesIff(a: Allocation, d: Document, combinations: seq<seq<PairInput>>, m: map<string, string>,
      dims: seq<Dimension>, restore: set<nat>, k: nat)
    requires k < |combinations| && StoppedAt(a, d, combinations, m, dims, restore, k)
    ensures a.doc != d <==> AnyFresh(d, combinations, m, dims, k)
  {
    FreshCounted(d, combinations, m, dims, k);
  }

  /** The SKU taken off sale: archived and retired under its next version, nothing else of it changed. */
  predicate IsRetiredOf(s: Sku, prior: Sku) {
    !prior.archived && s == prior.(archived := true, config := prior.config.(status := Retired), configVersion := prior.configVersion + 1)
  }

  predicate IsRetiredOfSome(s: Sku, prior: seq<Sku>) { exists j :: 0 <= j < |prior| && IsRetiredOf(s, prior[j]) }

  predicate HasSku(skus: seq<Sku>, sequence: nat) { exists i :: 0 <= i < |skus| && skus[i].sequence == sequence }

  /** A saved document sells exactly the requested combinations, in their order; then come the SKUs that were
      on sale and are not any more, retired. */
  predicate SellsRequested(after: Document, d: Document, c: Command, env: Env)
    requires c.Save?
  {
    var combinations, m, dims := Combinations(c), Mappings(d, c.dimensions, env), NewDimensions(d, c, env);
    var n := |combinations|;
    && n <= |after.skus|
    && (forall i | 0 <= i < n :: !after.skus[i].archived && Some(after.skus[i].key) == KeyOf(combinations[i], m, dims))
    && (forall i | n <= i < |after.skus| :: IsRetiredOfSome(after.skus[i], d.skus) && !HasSku(after.skus[..n], after.skus[i].sequence))
    && (forall j | 0 <= j < |d.skus| && !d.skus[j].archived :: HasSku(after.skus, d.skus[j].sequence))
    && after.nextSequence == d.nextSequence + FreshCount(d, combinations, m, dims)
  }

  /** The answer names the version, the SKUs on sale and the ids of the draft keys. */
  ghost predicate AnswersAsPromised(after: Document, d: Document, c: Command, env: Env, o: Outcome)
    requires c.Save?
  {
    && o.Saved? && o.version == after.structureVersion && |o.skus| == |Combinations(c)| <= |after.skus|
    && (forall i | 0 <= i < |o.skus| ::
          o.skus[i] == SavedSku(after.skus[i].sequence, after.skus[i].code, after.skus[i].key, after.skus[i].config.status))
    && MapsAsPromised(o.mappings, Entries(c.dimensions, env)) && DimensionsAsPromised(d, c, env, after.dimensions)
  }

  lemma {:induction false} DepartedCovers(prior: seq<Sku>, kept: seq<Sku>, j: nat)
    requires j < |prior| && !prior[j].archived
    ensures HasSku(kept, prior[j].sequence) || HasSku(Departed(prior, kept), prior[j].sequence)
  {
    var tail := Departed(prior[1..], kept);
    if j > 0 {
      DepartedCovers(prior[1..], kept, j - 1);
      if k :| 0 <= k < |tail| && tail[k].sequence == prior[j].sequence { assert tail[k] == Departed(prior, kept)[|Departed(prior, kept)| - |tail| + k]; }
    } else if !HasSequence(kept, prior[0].sequence) {
      assert Departed(prior, kept)[0] == ArchivedSku(prior[0]);
    }
  }

  lemma {:induction false} DepartedAreRetired(prior: seq<Sku>, kept: seq<Sku>, i: nat)
    requires i < |Departed(prior, kept)|
    ensures IsRetiredOfSome(Departed(prior, kept)[i], prior) && !HasSku(kept, Departed(prior, kept)[i].sequence)
  {
    var tail := Departed(prior[1..], kept);
    var head := |Departed(prior, kept)| - |tail|;
    if i < head {
      assert IsRetiredOf(Departed(prior, kept)[i], prior[0]);
    } else {
      DepartedAreRetired(prior[1..], kept, i - head);
      assert Departed(prior, kept)[i] == tail[i - head];
      var j :| 0 <= j < |prior[1..]| && IsRetiredOf(tail[i - head], prior[1..][j]);
      assert prior[j + 1] == prior[1..][j];
    }
  }

  lemma CommittedSells(a: Allocation, after: Document, d: Document, c: Command, env: Env)
    requires c.Save? && Allocated(a, d, Combinations(c), Mappings(d, c.dimensions, env), NewDimensions(d, c, env))
    requires after.skus == a.skus + Departed(d.skus, a.skus) && after.nextSequence == a.doc.nextSequence
    ensures SellsRequested(after, d, c, env)
  {
    var gone, n := Departed(d.skus, a.skus), |Combinations(c)|;
    assert after.skus[..n] == a.skus;
    forall i | n <= i < |after.skus| ensures IsRetiredOfSome(after.skus[i], d.skus) && !HasSku(a.skus, after.skus[i].sequence) {
      DepartedAreRetired(d.skus, a.skus, i - n);
      assert after.skus[i] == gone[i - n];
    }
    forall j | 0 <= j < |d.skus| && !d.skus[j].archived ensures HasSku(after.skus, d.skus[j].sequence) {
      DepartedCovers(d.skus, a.skus, j);
      if k :| 0 <= k < |a.skus| && a.skus[k].sequence == d.skus[j].sequence { assert after.skus[k] == a.skus[k]; }
      if k :| 0 <= k < |gone| && gone[k].sequence == d.skus[j].sequence { assert after.skus[n + k] == gone[k]; }
    }
  }

  lemma SavedAsRequested(existing: Option<Document>, c: Command, env: Env)
    requires c.Save? && !HasReceipt(Base(existing, c).commands, c.commandId) && SaveTx(existing, c, env).1.Ok?
    ensures SellsRequested(SaveTx(existing, c, env).0, Base(existing, c), c, env)
  {
    var d := Base(existing, c);
    SaveSucceedsIff(existing, c, env);
    RebuildLoop(d, c, env);
    var a := Allocate(d, Combinations(c), Mappings(d, c.dimensions, env), NewDimensions(d, c, env), c.restore);
    assert Combinations(c)[..|Combinations(c)|] == Combinations(c);
    CommittedSells(a, SaveTx(existing, c, env).0, d, c, env);
  }

  lemma AnswerAsPromised(existing: Option<Document>, c: Command, env: Env)
    requires c.Save? && !HasReceipt(Base(existing, c).commands, c.commandId) && SaveTx(existing, c, env).1.Ok?
    ensures AnswersAsPromised(SaveTx(existing, c, env).0, Base(existing, c), c, env, SaveTx(existing, c, env).1.value)
  {
    var d := Base(existing, c);
    SaveSucceedsIff(existing, c, env);
    RebuildLoop(d, c, env);
    var a := Allocate(d, Combinations(c), Mappings(d, c.dimensions, env), NewDimensions(d, c, env), c.restore);
    assert Combinations(c)[..|Combinations(c)|] == Combinations(c);
    MappingsAsPromised(d, c.dimensions, env);
    NewDimensionsAsPromised(d, c, env);
    assert forall i | 0 <= i < |a.skus| :: SaveTx(existing, c, env).0.skus[i] == a.skus[i];
  }

  /** A receipt decides alone. Otherwise: saved exactly when all can be had, and then as asked; failed with the sequences used so far. */
  ghost predicate SavesAsAsked(existing: Option<Document>, c: Command, env: Env, after: Document, r: Result<Outcome>)
    requires c.Save?
  {
    var d := Base(existing, c);
    if d.spuCode == c.spuCode && HasReceipt(d.commands, c.commandId) then after == d && r == Replay(d, c)
    else if ChecksPass(existing, c, env) && AllCanBeHad(d, c, env) then
      && r.Ok? && SellsRequested(after, d, c, env) && AnswersAsPromised(after, d, c, env, r.value)
      && after.structureVersion == d.structureVersion + 1 && after.commands == d.commands + [Receipt(c, r.value)]
    else
      && r.Err? && after == d.(nextSequence := after.nextSequence, inventories := after.inventories)
      && (after != d <==> ChecksPass(existing, c, env) && exists k :: 0 <= k < |Combinations(c)| && IssuesAt(d, c, env, k))
  }

  lemma SaveOutcome(existing: Option<Document>, c: Command, env: Env)
    requires c.Save?
    ensures SavesAsAsked(existing, c, env, SaveTx(existing, c, env).0, SaveTx(existing, c, env).1)
  {
    var d, r := Base(existing, c), SaveTx(existing, c, env).1;
    if d.spuCode == c.spuCode && !HasReceipt(d.commands, c.commandId) { SaveSucceedsIff(existing, c, env); }
    if r.Err? {
      FailedSaveChangesIff(existing, c, env);
      if ChecksPass(existing, c, env) { FailedLoopKeeps(d, c, env); }
    } else if !HasReceipt(d.commands, c.commandId) {
      SavedAsRequested(existing, c, env);
      AnswerAsPromised(existing, c, env);
      RebuildLoop(d, c, env);
    }
  }

  /** It stops at the first combination that cannot be had, and what is gone is one sequence for each fresh one before it. */
  lemma FailedSaveStops(existing: Option<Document>, c: Command, env: Env) returns (k: nat)
    requires c.Save? && ChecksPass(existing, c, env) && SaveTx(existing, c, env).1.Err?
    ensures var d := Base(existing, c);
            var combinations, m, dims := Combinations(c), Mappings(d, c.dimensions, env), NewDimensions(d, c, env);
            && k < |combinations| && NoneRefused(d, combinations, m, dims, c.restore, k) && Refused(d, combinations, m, dims, c.restore, k)
            && SaveTx(existing, c, env).0.nextSequence == d.nextSequence + FreshCount(d, combinations[..k], m, dims)
  {
    var d := Base(existing, c);
    var combinations, m, dims := Combinations(c), Mappings(d, c.dimensions, env), NewDimensions(d, c, env);
    RebuildLoop(d, c, env);
    var a := Allocate(d, combinations, m, dims, c.restore);
    k :| 0 <= k < |combinations| && StoppedAt(a, d, combinations, m, dims, c.restore, k);
  }

  /** Whatever else was to be saved is not, when a combination cannot be had. */
  lemma FailedLoopKeeps(d: Document, c: Command, env: Env)
    requires c.Save? && Rebuild(d, c, env).1.Err?
    ensures var after := Rebuild(d, c, env).0; after == d.(nextSequence := after.nextSequence, inventories := after.inventories)
  {
    var combinations, m, dims := Combinations(c), Mappings(d, c.dimensions, env), NewDimensions(d, c, env);
    RebuildLoop(d, c, env);
    var a := Allocate(d, combinations, m, dims, c.restore);
    var k :| 0 <= k < |combinations| && StoppedAt(a, d, combinations, m, dims, c.restore, k);
  }

  // ----- patches -----

  /** The SKU a patch names is there and has the version it expects. */
  predicate Finds(d: Document, p: Patch) {
    HasSequence(d.skus, p.sku) && !FindSequence(d.skus, p.sku).archived && FindSequence(d.skus, p.sku).configVersion == p.expected
  }

  /** The patch goes through, or sets another retail price before its supply price is refused. */
  predicate Touches(d: Document, p: Patch) {
    && Finds(d, p) && !BadPrice(p.retail)
    && (BadPrice(p.supply) ==> Priced(FindSequence(d.skus, p.sku).config.retail, p.retail) != FindSequence(d.skus, p.sku).config.retail)
  }

  lemma {:induction false} StopsAt(d: Document, patches: seq<Patch>, n: nat) returns (k: nat)
    requires n <= |patches| && PatchAll(d, patches, n).problem.Some?
    ensures k < n && PatchAll(d, patches, k).problem.None? && PatchOne(PatchAll(d, patches, k), patches, k).problem.Some?
    ensures PatchAll(d, patches, n) == PatchOne(PatchAll(d, patches, k), patches, k)
  {
    if PatchAll(d, patches, n - 1).problem.Some? { k := StopsAt(d, patches, n - 1); } else { k := n - 1; }
  }

  /** The first patch decides: once one went through, its SKU's version is past what the document had. */
  lemma FailedPatchChangesIff(d: Document, c: Command)
    requires c.PatchSkus? && DocInv(d) && PatchTx(d, c).1.Err?
    ensures PatchTx(d, c).0 != d <==>
              && !HasReceipt(d.commands, c.commandId) && (c.expectedStructure.Some? ==> c.expectedStructure.value == d.structureVersion)
              && c.patches != [] && Touches(d, c.patches[0])
  {
    if !HasReceipt(d.commands, c.commandId) && (c.expectedStructure.Some? ==> c.expectedStructure.value == d.structureVersion) {
      var k := StopsAt(d, c.patches, |c.patches|);
      if k == 0 { FirstPatchFails(d, c.patches); } else { LaterPatchFails(d, c.patches, k); }
    }
  }

  lemma TouchesChanges(s: Sku, p: Patch)
    requires BadPrice(p.retail) || BadPrice(p.supply)
    ensures PatchedSku(s, p).0.sequence == s.sequence
    ensures PatchedSku(s, p).0 != s <==> !BadPrice(p.retail) && Priced(s.config.retail, p.retail) != s.config.retail
  {
  }

  lemma {:induction false} ReplacedChanges(skus: seq<Sku>, s: Sku)
    requires HasSequence(skus, s.sequence)
    ensures Replaced(skus, s) != skus <==> s != FindSequence(skus, s.sequence)
  {
    if skus[0].sequence != s.sequence {
      ReplacedChanges(skus[1..], s);
      assert Replaced(skus, s)[1..] == Replaced(skus[1..], s);
    } else {
      assert Replaced(skus, s)[0] == s && skus == [skus[0]] + skus[1..];
    }
  }

  lemma FirstPatchFails(d: Document, patches: seq<Patch>)
    requires patches != [] && PatchOne(Patching(d, [], None), patches, 0).problem.Some?
    ensures PatchOne(Patching(d, [], None), patches, 0).doc != d <==> Touches(d, patches[0])
  {
    if Finds(d, patches[0]) {
      TouchesChanges(FindSequence(d.skus, patches[0].sku), patches[0]);
      ReplacedChanges(d.skus, PatchedSku(FindSequence(d.skus, patches[0].sku), patches[0]).0);
    }
  }

  lemma LaterPatchFails(d: Document, patches: seq<Patch>, k: nat)
    requires 0 < k < |patches| && DocInv(d) && PatchAll(d, patches, k).problem.None?
    ensures PatchOne(PatchAll(d, patches, k), patches, k).doc != d && Touches(d, patches[0])
  {
    var s := PatchAll(d, patches, k);
    var i := PatchVersions(d, patches, k, 0);
    PatchAllKeeps(d, patches, k);
    PatchOneKeeps(s, patches, k);
    AtLeastEvolves(s.doc, PatchOne(s, patches, k).doc, patches[0].sku, patches[0].expected + 1);
    FirstWentThrough(d, patches, k);
  }

  lemma {:induction false} FirstWentThrough(d: Document, patches: seq<Patch>, k: nat)
    requires 0 < k <= |patches| && PatchAll(d, patches, k).problem.None?
    ensures Finds(d, patches[0]) && !BadPrice(patches[0].retail) && !BadPrice(patches[0].supply)
  {
    if k > 1 { FirstWentThrough(d, patches, k - 1); } else { assert PatchAll(d, patches, 0) == Patching(d, [], None); }
  }
}
