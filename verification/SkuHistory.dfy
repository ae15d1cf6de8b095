/** What every run of commands keeps of a product document, including commands that fail half way. */
module SkuHistory {
  import opened Basics
  import opened SkuCore
  import opened SkuDocument

  // ----- the invariant of a document -----

  predicate Distinct(skus: seq<Sku>) {
    forall i, j | 0 <= i < j < |skus| :: skus[i].key != skus[j].key && skus[i].sequence != skus[j].sequence
  }

  predicate Issued(s: Sku, spuCode: string, next: nat) {
    s.sequence < next && FormatSkuCode(spuCode, s.sequence) == Ok(s.code) && s.key == CombinationKey(s.pairs)
  }

  predicate SkuFits(d: Document, s: Sku) { Issued(s, d.spuCode, d.nextSequence) && (!s.archived ==> Covers(s.pairs, d.dimensions)) }

  predicate SkusFit(d: Document) { Distinct(d.skus) && forall i | 0 <= i < |d.skus| :: SkuFits(d, d.skus[i]) }

  /** Every sequence ever issued has its inventory row, whether or not its save succeeded. */
  ghost predicate StockFits(d: Document) { d.nextSequence <= CAPACITY && forall n: nat :: n in d.inventories <==> n < d.nextSequence }

  predicate ReceiptsDistinct(commands: seq<Receipt>) {
    forall i, j | 0 <= i < j < |commands| :: commands[i].fingerprint.commandId != commands[j].fingerprint.commandId
  }

  ghost predicate DocInv(d: Document) { SkusFit(d) && StockFits(d) && ReceiptsDistinct(d.commands) }

  // ----- how a document changes -----

  /** The same SKU, later. */
  predicate Later(p: Sku, s: Sku) { p.sequence == s.sequence && p.key == s.key && p.code == s.code && p.configVersion <= s.configVersion }

  predicate Descends(prior: seq<Sku>, s: Sku) { exists i :: 0 <= i < |prior| && Later(prior[i], s) }

  /** A SKU of the later document descends from one of the earlier, or was issued in between. */
  predicate SkusEvolve(before: Document, after: Document) {
    forall i | 0 <= i < |after.skus| :: Descends(before.skus, after.skus[i]) || after.skus[i].sequence >= before.nextSequence
  }

  predicate Evolves(before: Document, after: Document) {
    && after.spuCode == before.spuCode && before.nextSequence <= after.nextSequence && before.structureVersion <= after.structureVersion
    && before.commands <= after.commands && SkusEvolve(before, after)
    && forall n | n in before.inventories :: n in after.inventories && before.inventories[n].version <= after.inventories[n].version
  }

  lemma EvolvesRefl(d: Document)
    ensures Evolves(d, d)
  {
    forall i | 0 <= i < |d.skus| ensures Descends(d.skus, d.skus[i]) { assert Later(d.skus[i], d.skus[i]); }
  }

  lemma DescendsTrans(a: seq<Sku>, b: seq<Sku>, s: Sku, i: nat)
    requires i < |b| && Later(b[i], s) && Descends(a, b[i])
    ensures Descends(a, s)
  {
    var j :| 0 <= j < |a| && Later(a[j], b[i]);
    assert Later(a[j], s);
  }

  lemma EvolvesTrans(a: Document, b: Document, c: Document)
    requires Evolves(a, b) && Evolves(b, c)
    ensures Evolves(a, c)
  {
    forall i | 0 <= i < |c.skus| ensures Descends(a.skus, c.skus[i]) || c.skus[i].sequence >= a.nextSequence {
      if Descends(b.skus, c.skus[i]) {
        var j :| 0 <= j < |b.skus| && Later(b.skus[j], c.skus[i]);
        if Descends(a.skus, b.skus[j]) { DescendsTrans(a.skus, b.skus, c.skus[i], j); }
      }
    }
  }

  // ----- lookups -----

  lemma {:induction false} FindsByKey(skus: seq<Sku>, i: nat)
    requires Distinct(skus) && i < |skus|
    ensures HasKey(skus, skus[i].key) && FindKey(skus, skus[i].key) == skus[i]
  {
    if i > 0 { FindsByKey(skus[1..], i - 1); }
  }

  lemma {:induction false} FindsBySequence(skus: seq<Sku>, i: nat)
    requires Distinct(skus) && i < |skus|
    ensures HasSequence(skus, skus[i].sequence) && FindSequence(skus, skus[i].sequence) == skus[i]
  {
    if i > 0 { FindsBySequence(skus[1..], i - 1); }
  }

  // ----- allocation -----

  predicate NewSkuFits(a: Allocation, d: Document, dims: seq<Dimension>, s: Sku) {
    && !s.archived && Issued(s, d.spuCode, a.doc.nextSequence) && Covers(s.pairs, dims)
    && (Descends(d.skus, s) || (s.sequence >= d.nextSequence && !HasKey(d.skus, s.key)))
  }

  ghost predicate AllocationFits(a: Allocation, d: Document, dims: seq<Dimension>) {
    && a.doc == d.(nextSequence := a.doc.nextSequence, inventories := a.doc.inventories)
    && d.nextSequence <= a.doc.nextSequence && StockFits(a.doc)
    && (forall n | n in d.inventories :: n in a.doc.inventories && a.doc.inventories[n] == d.inventories[n])
    && Distinct(a.skus) && forall i | 0 <= i < |a.skus| :: NewSkuFits(a, d, dims, a.skus[i])
  }

  lemma KeptSkuIsNew(a: Allocation, d: Document, dims: seq<Dimension>, p: nat, s: Sku)
    requires DocInv(d) && AllocationFits(a, d, dims) && p < |d.skus| && Later(d.skus[p], s) && !HasKey(a.skus, s.key)
    ensures Distinct(a.skus + [s])
  {
    forall i | 0 <= i < |a.skus| ensures a.skus[i].key != s.key && a.skus[i].sequence != s.sequence {
      if a.skus[i].sequence == s.sequence {
        assert NewSkuFits(a, d, dims, a.skus[i]) && SkuFits(d, d.skus[p]);
        var j :| 0 <= j < |d.skus| && Later(d.skus[j], a.skus[i]);
        SameSku(d.skus, p, j);
      }
    }
  }

  lemma SameSku(skus: seq<Sku>, i: int, j: int)
    requires Distinct(skus) && 0 <= i < |skus| && 0 <= j < |skus| && (skus[i].sequence == skus[j].sequence || skus[i].key == skus[j].key)
    ensures i == j
  {
    DistinctAt(skus, i, j);
  }

  lemma DistinctAt(skus: seq<Sku>, i: int, j: int)
    requires Distinct(skus) && 0 <= i < |skus| && 0 <= j < |skus|
    ensures i != j ==> skus[i].sequence != skus[j].sequence && skus[i].key != skus[j].key
  {
  }

  lemma KeepOne(a: Allocation, d: Document, dims: seq<Dimension>, prior: Sku, s: Sku)
    requires DocInv(d) && AllocationFits(a, d, dims) && prior in d.skus && Later(prior, s) && !HasKey(a.skus, s.key)
    requires !s.archived && s.key == CombinationKey(s.pairs) && Covers(s.pairs, dims)
    ensures AllocationFits(a.(skus := a.skus + [s]), d, dims)
  {
    var p :| 0 <= p < |d.skus| && d.skus[p] == prior;
    assert SkuFits(d, d.skus[p]);
    KeptSkuIsNew(a, d, dims, p, s);
    var a' := a.(skus := a.skus + [s]);
    assert NewSkuFits(a', d, dims, s);
    forall i | 0 <= i < |a'.skus| ensures NewSkuFits(a', d, dims, a'.skus[i]) {
      if i < |a.skus| { assert NewSkuFits(a, d, dims, a.skus[i]); }
    }
  }

  lemma IssueOne(a: Allocation, d: Document, dims: seq<Dimension>, pairs: seq<Pair>)
    requires DocInv(d) && AllocationFits(a, d, dims) && Covers(pairs, dims)
    requires !HasKey(a.skus, CombinationKey(pairs)) && !HasKey(d.skus, CombinationKey(pairs))
    ensures AllocationFits(Issue(a, pairs), d, dims)
  {
    var n := a.doc.nextSequence;
    if n < CAPACITY && FormatSkuCode(a.doc.spuCode, n).Ok? {
      var s := Sku(n, FormatSkuCode(a.doc.spuCode, n).value, CombinationKey(pairs), pairs, NEW_CONFIG, 1, false);
      forall i | 0 <= i < |a.skus| ensures a.skus[i].key != s.key && a.skus[i].sequence != s.sequence {
        assert NewSkuFits(a, d, dims, a.skus[i]);
      }
      NextFits(a, d, dims, Issue(a, pairs), s);
    }
  }

  lemma NextFits(a: Allocation, d: Document, dims: seq<Dimension>, b: Allocation, s: Sku)
    requires AllocationFits(a, d, dims) && b.skus == a.skus + [s] && b.doc.nextSequence == a.doc.nextSequence + 1 <= CAPACITY
    requires b.doc == a.doc.(nextSequence := b.doc.nextSequence, inventories := a.doc.inventories[a.doc.nextSequence := Inventory(0, 1)])
    requires NewSkuFits(b, d, dims, s) && forall i | 0 <= i < |a.skus| :: a.skus[i].key != s.key && a.skus[i].sequence != s.sequence
    ensures AllocationFits(b, d, dims)
  {
    forall i | 0 <= i < |b.skus| ensures NewSkuFits(b, d, dims, b.skus[i]) {
      if i < |a.skus| { assert NewSkuFits(a, d, dims, a.skus[i]); }
    }
  }

  lemma AllocateOneFits(a: Allocation, d: Document, combination: seq<PairInput>, m: map<string, string>, dims: seq<Dimension>, restore: set<nat>)
    requires DocInv(d) && AllocationFits(a, d, dims)
    ensures AllocationFits(AllocateOne(a, combination, m, dims, restore), d, dims)
  {
    var r := Resolve(combination, m, dims);
    if r.Ok? {
      var key := CombinationKey(r.value);
      if !HasKey(a.skus, key) {
        if HasKey(d.skus, key) {
          var prior := FindKey(d.skus, key);
          if !prior.archived {
            KeepOne(a, d, dims, prior, prior.(pairs := r.value));
          } else if prior.sequence in restore {
            KeepOne(a, d, dims, prior, Restored(prior, r.value));
          }
        } else {
          IssueOne(a, d, dims, r.value);
        }
      }
    }
  }

  lemma {:induction false} AllocateFits(d: Document, combinations: seq<seq<PairInput>>, m: map<string, string>, dims: seq<Dimension>, restore: set<nat>)
    requires DocInv(d)
    ensures AllocationFits(Allocate(d, combinations, m, dims, restore), d, dims)
  {
    if combinations != [] {
      var n := |combinations| - 1;
      AllocateFits(d, combinations[..n], m, dims, restore);
      AllocateOneFits(Allocate(d, combinations[..n], m, dims, restore), d, combinations[n], m, dims, restore);
    }
  }

  /** A failed save only burns sequences: the SKUs and dimensions it found are still there. */
  lemma BurntSequencesKeep(a: Allocation, d: Document, dims: seq<Dimension>)
    requires DocInv(d) && AllocationFits(a, d, dims)
    ensures DocInv(a.doc) && Evolves(d, a.doc)
  {
    EvolvesRefl(d);
    forall i | 0 <= i < |d.skus| ensures SkuFits(a.doc, a.doc.skus[i]) { assert SkuFits(d, d.skus[i]); }
    forall i | 0 <= i < |d.skus| ensures Descends(d.skus, a.doc.skus[i]) { assert Later(d.skus[i], d.skus[i]); }
  }

  // ----- archiving -----

  predicate ArchivedFrom(p: Sku, s: Sku) {
    !p.archived && s.archived && Later(p, s) && s.pairs == p.pairs
  }

  /** What departs are the active SKUs that were not kept, in order. */
  lemma {:induction false} DepartedMembers(prior: seq<Sku>, kept: seq<Sku>, i: nat) returns (p: nat)
    requires i < |Departed(prior, kept)|
    ensures p < |prior| && ArchivedFrom(prior[p], Departed(prior, kept)[i]) && !HasSequence(kept, prior[p].sequence)
  {
    var tail := Departed(prior[1..], kept);
    if prior[0].archived || HasSequence(kept, prior[0].sequence) {
      assert Departed(prior, kept) == tail;
      p := DepartedMembers(prior[1..], kept, i);
      p := p + 1;
    } else if i == 0 {
      p := 0;
    } else {
      assert Departed(prior, kept)[i] == tail[i - 1];
      p := DepartedMembers(prior[1..], kept, i - 1);
      p := p + 1;
    }
  }

  lemma {:induction false} DepartedDistinct(prior: seq<Sku>, kept: seq<Sku>)
    requires Distinct(prior)
    ensures Distinct(Departed(prior, kept))
  {
    if prior != [] {
      DepartedDistinct(prior[1..], kept);
      var tail := Departed(prior[1..], kept);
      forall i | 0 <= i < |tail| ensures tail[i].key != prior[0].key && tail[i].sequence != prior[0].sequence {
        var p := DepartedMembers(prior[1..], kept, i);
        DistinctAt(prior, 0, p + 1);
      }
    }
  }

  lemma AllDistinct(a: Allocation, d: Document, dims: seq<Dimension>)
    requires DocInv(d) && AllocationFits(a, d, dims)
    ensures Distinct(a.skus + Departed(d.skus, a.skus))
  {
    var gone := Departed(d.skus, a.skus);
    DepartedDistinct(d.skus, a.skus);
    forall i, j | 0 <= i < |a.skus| && 0 <= j < |gone| ensures a.skus[i].key != gone[j].key && a.skus[i].sequence != gone[j].sequence {
      var p := DepartedMembers(d.skus, a.skus, j);
    }
  }

  lemma CommittedSkus(a: Allocation, d: Document, dims: seq<Dimension>, after: Document, i: nat)
    requires DocInv(d) && AllocationFits(a, d, dims) && after.skus == a.skus + Departed(d.skus, a.skus) && i < |after.skus|
    requires after.spuCode == d.spuCode && after.nextSequence == a.doc.nextSequence && after.dimensions == dims
    ensures SkuFits(after, after.skus[i]) && (Descends(d.skus, after.skus[i]) || after.skus[i].sequence >= d.nextSequence)
  {
    if i < |a.skus| {
      assert NewSkuFits(a, d, dims, after.skus[i]);
    } else {
      var p := DepartedMembers(d.skus, a.skus, i - |a.skus|);
      GoneSku(d, after, p, after.skus[i]);
    }
  }

  lemma GoneSku(d: Document, after: Document, p: nat, s: Sku)
    requires SkusFit(d) && p < |d.skus| && ArchivedFrom(d.skus[p], s)
    requires after.spuCode == d.spuCode && d.nextSequence <= after.nextSequence
    ensures SkuFits(after, s) && Descends(d.skus, s)
  {
    assert SkuFits(d, d.skus[p]);
  }

  lemma ReceiptAdded(d: Document, c: Command, o: Outcome)
    requires ReceiptsDistinct(d.commands) && !HasReceipt(d.commands, c.commandId)
    ensures ReceiptsDistinct(Recorded(d, c, o).commands) && d.commands <= Recorded(d, c, o).commands
  {
  }

  lemma CommitKeeps(a: Allocation, d: Document, c: Command, dims: seq<Dimension>, m: map<string, string>)
    requires c.Save? && DocInv(d) && AllocationFits(a, d, dims) && !HasReceipt(d.commands, c.commandId)
    ensures DocInv(Committed(a, c, dims, m).0) && Evolves(d, Committed(a, c, dims, m).0)
  {
    var (after, outcome) := Committed(a, c, dims, m);
    AllDistinct(a, d, dims);
    forall i | 0 <= i < |after.skus|
      ensures SkuFits(after, after.skus[i]) && (Descends(d.skus, after.skus[i]) || after.skus[i].sequence >= d.nextSequence)
    {
      CommittedSkus(a, d, dims, after, i);
    }
    ReceiptAdded(a.doc.(dimensions := dims, skus := after.skus, structureVersion := after.structureVersion), c, outcome);
  }

  lemma SaveKeeps(existing: Option<Document>, c: Command, env: Env)
    requires c.Save? && (existing.Some? ==> DocInv(existing.value))
    ensures DocInv(SaveTx(existing, c, env).0)
    ensures existing.Some? ==> Evolves(existing.value, SaveTx(existing, c, env).0)
  {
    var d := if existing.Some? then existing.value else CreateDocument(c.spuCode);
    EvolvesRefl(d);
    if SaveTx(existing, c, env) == Rebuild(d, c, env) && !HasReceipt(d.commands, c.commandId) { RebuildKeeps(d, c, env); }
  }

  lemma RebuildKeeps(d: Document, c: Command, env: Env)
    requires c.Save? && DocInv(d) && !HasReceipt(d.commands, c.commandId)
    ensures DocInv(Rebuild(d, c, env).0) && Evolves(d, Rebuild(d, c, env).0)
  {
    var m, dims := Mappings(d, c.dimensions, env), NewDimensions(d, c, env);
    var a := Allocate(d, Combinations(c), m, dims, c.restore);
    AllocateFits(d, Combinations(c), m, dims, c.restore);
    if a.problem.Some? { BurntSequencesKeep(a, d, dims); } else { CommitKeeps(a, d, c, dims, m); }
  }

  /** A save that fails is not a no-op, but all it changes is which sequences are left: each one it used
      up stays used up, with an empty inventory, and nothing else of the document moves. */
  lemma FailedSaveOnlyBurnsSequences(d: Document, c: Command, env: Env)
    requires c.Save? && DocInv(d) && SaveTx(Some(d), c, env).1.Err?
    ensures var after := SaveTx(Some(d), c, env).0;
            && after == d.(nextSequence := after.nextSequence, inventories := after.inventories)
            && (forall n | n in d.inventories :: n in after.inventories && after.inventories[n] == d.inventories[n])
            && (after == d <==> after.nextSequence == d.nextSequence)
  {
    var after := SaveTx(Some(d), c, env).0;
    if after != d {
      var m, dims := Mappings(d, c.dimensions, env), NewDimensions(d, c, env);
      AllocateFits(d, Combinations(c), m, dims, c.restore);
      assert AllocationFits(Allocate(d, Combinations(c), m, dims, c.restore), d, dims);
    }
    assert StockFits(after);
    if after.nextSequence == d.nextSequence { assert after.inventories == d.inventories; }
  }

  // ----- replacing one SKU -----

  lemma {:induction false} ReplacedAt(skus: seq<Sku>, s: Sku, i: nat)
    requires Distinct(skus) && i < |skus|
    ensures |Replaced(skus, s)| == |skus| && Replaced(skus, s)[i] == if skus[i].sequence == s.sequence then s else skus[i]
  {
    if skus[0].sequence == s.sequence {
      DistinctAt(skus, 0, i);
    } else {
      if |skus| > 1 { ReplacedAt(skus[1..], s, if i > 0 then i - 1 else 0); }
    }
  }

  /** A newer version of a SKU keeps its place, key, code and pairs. */
  predicate NewVersion(p: Sku, s: Sku) { Later(p, s) && s.pairs == p.pairs && s.archived == p.archived }

  lemma ReplacedFits(d: Document, s: Sku, k: nat, i: nat)
    requires SkusFit(d) && k < |d.skus| && NewVersion(d.skus[k], s) && i < |d.skus|
    ensures |Replaced(d.skus, s)| == |d.skus| && Later(d.skus[i], Replaced(d.skus, s)[i]) && SkuFits(d, Replaced(d.skus, s)[i])
  {
    ReplacedAt(d.skus, s, i);
    DistinctAt(d.skus, i, k);
    assert SkuFits(d, d.skus[i]);
  }

  lemma ReplaceKeeps(d: Document, p: Sku, s: Sku)
    requires DocInv(d) && p in d.skus && NewVersion(p, s)
    ensures DocInv(d.(skus := Replaced(d.skus, s))) && Evolves(d, d.(skus := Replaced(d.skus, s)))
    ensures s in Replaced(d.skus, s)
  {
    var k :| 0 <= k < |d.skus| && d.skus[k] == p;
    var after := Replaced(d.skus, s);
    ReplacedAt(d.skus, s, k);
    forall i | 0 <= i < |d.skus| ensures |after| == |d.skus| && Later(d.skus[i], after[i]) && SkuFits(d, after[i]) { ReplacedFits(d, s, k, i); }
    StillFits(d, after);
  }

  /** Newer versions of all SKUs, each in its place. */
  lemma StillFits(d: Document, after: seq<Sku>)
    requires DocInv(d) && |after| == |d.skus|
    requires forall i | 0 <= i < |d.skus| :: Later(d.skus[i], after[i]) && SkuFits(d, after[i])
    ensures DocInv(d.(skus := after)) && Evolves(d, d.(skus := after))
  {
    forall i, j | 0 <= i < j < |after| ensures after[i].key != after[j].key && after[i].sequence != after[j].sequence {
      assert Later(d.skus[i], after[i]) && Later(d.skus[j], after[j]);
      DistinctAt(d.skus, i, j);
    }
    forall i | 0 <= i < |after| ensures SkuFits(d.(skus := after), after[i]) && Descends(d.skus, after[i]) {
      assert Later(d.skus[i], after[i]) && SkuFits(d, after[i]);
    }
  }

  lemma PatchIsNewVersion(s: Sku, p: Patch)
    ensures NewVersion(s, PatchedSku(s, p).0)
    ensures PatchedSku(s, p).1.None? ==> PatchedSku(s, p).0.configVersion == s.configVersion + 1
  {
  }

  lemma PatchOneKeeps(s: Patching, patches: seq<Patch>, n: nat)
    requires DocInv(s.doc) && n < |patches|
    ensures DocInv(PatchOne(s, patches, n).doc) && Evolves(s.doc, PatchOne(s, patches, n).doc)
    ensures PatchOne(s, patches, n).doc.commands == s.doc.commands && PatchOne(s, patches, n).doc.nextSequence == s.doc.nextSequence
  {
    EvolvesRefl(s.doc);
    if HasSequence(s.doc.skus, patches[n].sku) {
      var sku := FindSequence(s.doc.skus, patches[n].sku);
      PatchIsNewVersion(sku, patches[n]);
      ReplaceKeeps(s.doc, sku, PatchedSku(sku, patches[n]).0);
    }
  }

  lemma {:induction false} PatchAllKeeps(d: Document, patches: seq<Patch>, n: nat)
    requires DocInv(d) && n <= |patches|
    ensures DocInv(PatchAll(d, patches, n).doc) && Evolves(d, PatchAll(d, patches, n).doc)
    ensures PatchAll(d, patches, n).doc.commands == d.commands && PatchAll(d, patches, n).doc.nextSequence == d.nextSequence
  {
    if n == 0 {
      EvolvesRefl(d);
    } else {
      PatchAllKeeps(d, patches, n - 1);
      var s := PatchAll(d, patches, n - 1);
      if s.problem.None? {
        PatchOneKeeps(s, patches, n - 1);
        EvolvesTrans(d, s.doc, PatchOne(s, patches, n - 1).doc);
      }
    }
  }

  lemma RecordKeeps(d: Document, s: Document, c: Command, o: Outcome)
    requires DocInv(s) && Evolves(d, s) && s.commands == d.commands && !HasReceipt(d.commands, c.commandId)
    ensures DocInv(Recorded(s, c, o)) && Evolves(d, Recorded(s, c, o))
  {
    ReceiptAdded(s, c, o);
    assert forall i | 0 <= i < |s.skus| :: SkuFits(Recorded(s, c, o), s.skus[i]) == SkuFits(s, s.skus[i]);
  }

  lemma PatchKeeps(d: Document, c: Command)
    requires c.PatchSkus? && DocInv(d)
    ensures DocInv(PatchTx(d, c).0) && Evolves(d, PatchTx(d, c).0)
  {
    EvolvesRefl(d);
    PatchAllKeeps(d, c.patches, |c.patches|);
    var s := PatchAll(d, c.patches, |c.patches|);
    if s.problem.None? && !HasReceipt(d.commands, c.commandId) { RecordKeeps(d, s.doc, c, Patched(s.affected)); }
  }

  lemma CopyToKeeps(s: Patching, source: Config, target: nat, c: Command)
    requires c.CopySku? && DocInv(s.doc)
    ensures DocInv(CopyTo(s, source, target, c).doc) && Evolves(s.doc, CopyTo(s, source, target, c).doc)
    ensures CopyTo(s, source, target, c).doc.commands == s.doc.commands
  {
    EvolvesRefl(s.doc);
    if ActiveSku(s.doc, target) {
      var prior := FindActive(s.doc.skus, target);
      ReplaceKeeps(s.doc, prior, CopiedSku(prior, source, c));
    }
  }

  lemma {:induction false} CopyAllKeeps(d: Document, source: Config, targets: seq<nat>, c: Command)
    requires c.CopySku? && DocInv(d)
    ensures DocInv(CopyAll(d, source, targets, c).doc) && Evolves(d, CopyAll(d, source, targets, c).doc)
    ensures CopyAll(d, source, targets, c).doc.commands == d.commands
  {
    EvolvesRefl(d);
    if targets != [] {
      var s := CopyAll(d, source, targets[..|targets| - 1], c);
      CopyAllKeeps(d, source, targets[..|targets| - 1], c);
      CopyToKeeps(s, source, targets[|targets| - 1], c);
      EvolvesTrans(d, s.doc, CopyAll(d, source, targets, c).doc);
    }
  }

  lemma CopyKeeps(d: Document, c: Command)
    requires c.CopySku? && DocInv(d)
    ensures DocInv(CopyTx(d, c).0) && Evolves(d, CopyTx(d, c).0)
  {
    EvolvesRefl(d);
    if !HasReceipt(d.commands, c.commandId) && ActiveSku(d, c.source) {
      var source := FindActive(d.skus, c.source).config;
      var s := CopyAll(d, source, c.targets, c);
      CopyAllKeeps(d, source, c.targets, c);
      RecordKeeps(d, s.doc, c, Patched(s.affected));
    }
  }

  lemma StockKeeps(d: Document, c: Command)
    requires c.SetStock? && c.quantity >= 0 && DocInv(d)
    ensures DocInv(StockTx(d, c).0) && Evolves(d, StockTx(d, c).0)
  {
    EvolvesRefl(d);
    if !HasReceipt(d.commands, c.commandId) && c.sku in d.inventories {
      var stock := Inventory(c.quantity, d.inventories[c.sku].version + 1);
      RestockKeeps(d, c.sku, stock);
      RecordKeeps(d, Restocked(d, c.sku, stock), c, Stocked(c.sku, stock.quantity, stock.version));
    }
  }

  lemma RestockKeeps(d: Document, n: nat, stock: Inventory)
    requires DocInv(d) && n in d.inventories && stock.version >= d.inventories[n].version
    ensures DocInv(Restocked(d, n, stock)) && Evolves(d, Restocked(d, n, stock))
  {
    EvolvesRefl(d);
    forall i | 0 <= i < |d.skus| ensures SkuFits(Restocked(d, n, stock), d.skus[i]) { assert SkuFits(d, d.skus[i]); }
  }
}
