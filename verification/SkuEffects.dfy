/** What patching, copying and stocking change of a product, field by field, told from the command and the document. */
module SkuEffects {
  import opened Basics
  import opened SkuCore
  import opened SkuAmount
  import opened SkuDocument
  import opened SkuHistory
  import opened SkuCatalogue

  // ----- replays -----

  predicate FirstReceipt(d: Document, id: string, i: nat) {
    i < |d.commands| && d.commands[i].fingerprint.commandId == id && forall j | 0 <= j < i :: d.commands[j].fingerprint.commandId != id
  }

  /** The same command gets its recorded result, another one under its id is refused, and nothing changes. */
  predicate ReplaysAsPromised(d: Document, after: Document, r: Result<Outcome>, c: Command) {
    after == d && forall i: nat | i < |d.commands| && FirstReceipt(d, c.commandId, i) ::
      r == if d.commands[i].fingerprint == c then Ok(d.commands[i].outcome) else Err(IdempotencyConflict)
  }

  lemma {:induction false} FindsFirst(commands: seq<Receipt>, id: string, i: nat)
    requires i < |commands| && commands[i].fingerprint.commandId == id && forall j | 0 <= j < i :: commands[j].fingerprint.commandId != id
    ensures HasReceipt(commands, id) && FindReceipt(commands, id) == commands[i]
  {
    if i > 0 {
      assert forall j | 0 <= j < i - 1 :: commands[1..][j] == commands[j + 1];
      FindsFirst(commands[1..], id, i - 1);
    }
  }

  lemma ReplayAsPromised(d: Document, c: Command)
    requires HasReceipt(d.commands, c.commandId)
    ensures ReplaysAsPromised(d, d, Replay(d, c), c)
  {
    forall i: nat | i < |d.commands| && FirstReceipt(d, c.commandId, i) ensures FindReceipt(d.commands, c.commandId) == d.commands[i] {
      FindsFirst(d.commands, c.commandId, i);
    }
  }

  // ----- stock -----

  predicate IsLive(d: Document, n: nat) { exists i :: 0 <= i < |d.skus| && d.skus[i].sequence == n && !d.skus[i].archived }

  /** The quantity asked for is stored under the next version and answered, and nothing else changes. */
  predicate StocksAsPromised(d: Document, after: Document, r: Result<Outcome>, c: Command)
    requires c.SetStock? && c.quantity >= 0
  {
    if HasReceipt(d.commands, c.commandId) then ReplaysAsPromised(d, after, r, c)
    else if !IsLive(d, c.sku) || c.sku !in d.inventories then after == d && r == Err(NotFound)
    else if d.inventories[c.sku].version != c.expected then after == d && r == Err(VersionConflict)
    else
      var v := d.inventories[c.sku].version + 1;
      && r == Ok(Stocked(c.sku, c.quantity, v))
      && after == d.(inventories := d.inventories[c.sku := Inventory(c.quantity, v)], commands := d.commands + [Receipt(c, Stocked(c.sku, c.quantity, v))])
  }

  lemma StockKeepsPromise(d: Document, c: Command)
    requires c.SetStock? && c.quantity >= 0
    ensures StocksAsPromised(d, StockTx(d, c).0, StockTx(d, c).1, c)
  {
    if HasReceipt(d.commands, c.commandId) { ReplayAsPromised(d, c); }
  }

  // ----- one patch -----

  /** Kept, cleared, or set to the same worth in the form with two decimals. */
  predicate PriceIs(prior: Option<string>, change: Change, now: Option<string>) {
    match change
    case Keep => now == prior
    case Clear => now == None
    case Set(v) => ValidAmount(v) && now.Some? && ValidAmount(now.value) && Cents(now.value) == Cents(v) && |Fraction(now.value)| == 2
  }

  predicate ImageIs(prior: Option<string>, change: Change, now: Option<string>) {
    now == match change case Keep => prior case Clear => None case Set(v) => Some(v)
  }

  predicate Refuses(change: Change) { change.Set? && !ValidAmount(change.value) }

  /** Each field gets its own change under the next version. A refused supply price leaves the retail price behind. */
  predicate PatchesAsPromised(s: Sku, p: Patch, after: Sku, problem: Option<Problem>) {
    if Refuses(p.retail) then after == s && problem == Some(ValidationFailed)
    else
      && PriceIs(s.config.retail, p.retail, after.config.retail)
      && if Refuses(p.supply) then after == s.(config := s.config.(retail := after.config.retail)) && problem == Some(ValidationFailed)
         else
           && problem == None && after == s.(config := after.config, configVersion := s.configVersion + 1)
           && PriceIs(s.config.supply, p.supply, after.config.supply) && ImageIs(s.config.image, p.image, after.config.image)
           && after.config.status == if p.status.Some? then p.status.value else s.config.status
  }

  lemma PricedAsPromised(prior: Option<string>, change: Change)
    requires !Refuses(change)
    ensures PriceIs(prior, change, Priced(prior, change))
  {
    if change.Set? {
      NormalizationKeepsTheValue(change.value);
      CanonicalParts(change.value);
    }
  }

  lemma PatchKeepsPromise(s: Sku, p: Patch)
    ensures PatchesAsPromised(s, p, PatchedSku(s, p).0, PatchedSku(s, p).1)
  {
    if !Refuses(p.retail) {
      PricedAsPromised(s.config.retail, p.retail);
      if !Refuses(p.supply) { PricedAsPromised(s.config.supply, p.supply); }
    }
  }

  // ----- all patches -----

  /** Among the first n patches, the one that names this SKU. */
  predicate NamesSku(patches: seq<Patch>, n: nat, k: nat, s: Sku)
    requires n <= |patches|
  {
    k < n && patches[k].sku == s.sequence
  }

  ghost predicate PatchedUpTo(patches: seq<Patch>, n: nat, s: Sku, after: Sku)
    requires n <= |patches|
  {
    && (forall k: nat | NamesSku(patches, n, k, s) :: !s.archived && s.configVersion == patches[k].expected && PatchesAsPromised(s, patches[k], after, None))
    && ((forall k: nat :: !NamesSku(patches, n, k, s)) ==> after == s)
  }

  /** After n patches that went through: only the named SKUs changed, each by its own patch. */
  ghost predicate PatchedSoFar(d: Document, patches: seq<Patch>, n: nat, s: Patching)
    requires n <= |patches|
  {
    && s.doc == d.(skus := s.doc.skus) && |s.doc.skus| == |d.skus| && |s.affected| == n
    && (forall k, l | 0 <= k < l < n :: patches[k].sku != patches[l].sku)
    && (forall i | 0 <= i < |d.skus| :: PatchedUpTo(patches, n, d.skus[i], s.doc.skus[i]))
    && forall k | 0 <= k < n :: Answered(d, patches[k], s, k)
  }

  /** The k-th answer is what the named SKU is now. */
  predicate Answered(d: Document, p: Patch, s: Patching, k: nat)
    requires k < |s.affected| && |s.doc.skus| == |d.skus|
  {
    exists i :: 0 <= i < |d.skus| && d.skus[i].sequence == p.sku && s.affected[k] == View(s.doc.skus[i])
  }

  lemma NotNamed(patches: seq<Patch>, n: nat, s: Sku)
    requires n < |patches| && patches[n].sku == s.sequence && !Repeats(patches, n)
    ensures forall k: nat :: !NamesSku(patches, n, k, s)
  {
  }

  lemma PatchedOneMore(patches: seq<Patch>, n: nat, s: Sku, now: Sku, after: Sku)
    requires n < |patches| && PatchedUpTo(patches, n, s, now)
    requires if patches[n].sku == s.sequence then !Repeats(patches, n) && !now.archived && now.configVersion == patches[n].expected
                                                 && PatchesAsPromised(now, patches[n], after, None)
             else after == now
    ensures PatchedUpTo(patches, n + 1, s, after)
  {
    if patches[n].sku == s.sequence {
      NotNamed(patches, n, s);
      assert NamesSku(patches, n + 1, n, s);
      forall k: nat ensures NamesSku(patches, n + 1, k, s) <==> k == n || NamesSku(patches, n, k, s) {}
    } else {
      forall k: nat ensures NamesSku(patches, n + 1, k, s) <==> NamesSku(patches, n, k, s) {}
    }
  }

  lemma {:induction false} SequenceAt(skus: seq<Sku>, sequence: nat) returns (i: nat)
    requires HasSequence(skus, sequence)
    ensures i < |skus| && skus[i].sequence == sequence && skus[i] == FindSequence(skus, sequence)
  {
    if skus[0].sequence == sequence { i := 0; } else {
      i := SequenceAt(skus[1..], sequence);
      i := i + 1;
    }
  }

  /** The one SKU a patch that goes through names. */
  lemma PatchOneStep(s: Patching, patches: seq<Patch>, n: nat) returns (i: nat)
    requires n < |patches| && Distinct(s.doc.skus) && PatchOne(s, patches, n).problem.None?
    ensures !Repeats(patches, n) && i < |s.doc.skus| && s.doc.skus[i].sequence == patches[n].sku && !s.doc.skus[i].archived
    ensures s.doc.skus[i].configVersion == patches[n].expected
    ensures var t := PatchOne(s, patches, n);
            && |t.doc.skus| == |s.doc.skus| && t.doc == s.doc.(skus := t.doc.skus) && t.affected == s.affected + [View(t.doc.skus[i])]
            && PatchesAsPromised(s.doc.skus[i], patches[n], t.doc.skus[i], None)
            && forall j | 0 <= j < |s.doc.skus| && j != i :: s.doc.skus[j].sequence != patches[n].sku && t.doc.skus[j] == s.doc.skus[j]
  {
    i := SequenceAt(s.doc.skus, patches[n].sku);
    var sku' := PatchedSku(s.doc.skus[i], patches[n]).0;
    PatchKeepsPromise(s.doc.skus[i], patches[n]);
    forall j | 0 <= j < |s.doc.skus|
      ensures |Replaced(s.doc.skus, sku')| == |s.doc.skus| && Replaced(s.doc.skus, sku')[j] == if j == i then sku' else s.doc.skus[j]
      ensures j != i ==> s.doc.skus[j].sequence != patches[n].sku
    {
      ReplacedAt(s.doc.skus, sku', j);
      DistinctAt(s.doc.skus, i, j);
    }
  }

  lemma SoFarOneMore(d: Document, patches: seq<Patch>, n: nat, s: Patching, t: Patching, i: nat)
    requires n < |patches| && PatchedSoFar(d, patches, n, s) && !Repeats(patches, n) && i < |d.skus|
    requires forall j | 0 <= j < |d.skus| :: s.doc.skus[j].sequence == d.skus[j].sequence
    requires s.doc.skus[i].sequence == patches[n].sku && !s.doc.skus[i].archived && s.doc.skus[i].configVersion == patches[n].expected
    requires |t.doc.skus| == |s.doc.skus| && t.doc == s.doc.(skus := t.doc.skus) && t.affected == s.affected + [View(t.doc.skus[i])]
    requires PatchesAsPromised(s.doc.skus[i], patches[n], t.doc.skus[i], None)
    requires forall j | 0 <= j < |s.doc.skus| && j != i :: s.doc.skus[j].sequence != patches[n].sku && t.doc.skus[j] == s.doc.skus[j]
    ensures PatchedSoFar(d, patches, n + 1, t)
  {
    forall j | 0 <= j < |d.skus| ensures PatchedUpTo(patches, n + 1, d.skus[j], t.doc.skus[j]) {
      assert PatchedUpTo(patches, n, d.skus[j], s.doc.skus[j]);
      PatchedOneMore(patches, n, d.skus[j], s.doc.skus[j], t.doc.skus[j]);
    }
    AnswersOneMore(d, patches, n, s, t, i);
  }

  lemma AnswersOneMore(d: Document, patches: seq<Patch>, n: nat, s: Patching, t: Patching, i: nat)
    requires n < |patches| && |s.affected| == n && |s.doc.skus| == |t.doc.skus| == |d.skus| && i < |d.skus|
    requires forall k | 0 <= k < n :: Answered(d, patches[k], s, k)
    requires t.affected == s.affected + [View(t.doc.skus[i])] && !Repeats(patches, n) && s.doc.skus[i].sequence == patches[n].sku
    requires forall j | 0 <= j < |d.skus| :: s.doc.skus[j].sequence == d.skus[j].sequence
    requires forall j | 0 <= j < |d.skus| && j != i :: t.doc.skus[j] == s.doc.skus[j]
    ensures forall k | 0 <= k < n + 1 :: Answered(d, patches[k], t, k)
  {
    forall k | 0 <= k < n + 1 ensures Answered(d, patches[k], t, k) {
      if k < n { StillAnswered(d, patches, n, s, t, i, k); }
    }
  }

  lemma StillAnswered(d: Document, patches: seq<Patch>, n: nat, s: Patching, t: Patching, i: nat, k: nat)
    requires k < n < |patches| && |s.affected| == n && |s.doc.skus| == |t.doc.skus| == |d.skus| && i < |d.skus| && |t.affected| == n + 1
    requires Answered(d, patches[k], s, k) && t.affected[k] == s.affected[k] && !Repeats(patches, n) && s.doc.skus[i].sequence == patches[n].sku
    requires forall j | 0 <= j < |d.skus| :: s.doc.skus[j].sequence == d.skus[j].sequence
    requires forall j | 0 <= j < |d.skus| && j != i :: t.doc.skus[j] == s.doc.skus[j]
    ensures Answered(d, patches[k], t, k)
  {
    var j :| 0 <= j < |d.skus| && d.skus[j].sequence == patches[k].sku && s.affected[k] == View(s.doc.skus[j]);
    assert patches[k].sku != patches[n].sku;
    assert t.doc.skus[j] == s.doc.skus[j];
  }

  lemma SameSequences(before: Document, after: Document, patches: seq<Patch>, n: nat, s: Patching)
    requires n <= |patches| && PatchedSoFar(before, patches, n, s) && after == s.doc
    ensures forall j | 0 <= j < |before.skus| :: after.skus[j].sequence == before.skus[j].sequence
  {
    forall j | 0 <= j < |before.skus| ensures after.skus[j].sequence == before.skus[j].sequence {
      assert PatchedUpTo(patches, n, before.skus[j], after.skus[j]);
      if k: nat :| NamesSku(patches, n, k, before.skus[j]) {
        assert PatchesAsPromised(before.skus[j], patches[k], after.skus[j], None);
      }
    }
  }

  lemma {:induction false} PatchAllKeepsPromise(d: Document, patches: seq<Patch>, n: nat)
    requires DocInv(d) && n <= |patches| && PatchAll(d, patches, n).problem.None?
    ensures PatchedSoFar(d, patches, n, PatchAll(d, patches, n))
  {
    if n == 0 {
      NothingPatched(d, patches);
    } else {
      PatchAllKeepsPromise(d, patches, n - 1);
      PatchedStayDistinct(d, patches, n - 1);
      PatchStep(d, patches, n - 1, PatchAll(d, patches, n - 1));
      NextPatch(d, patches, n - 1);
    }
  }

  lemma NothingPatched(d: Document, patches: seq<Patch>)
    ensures PatchedSoFar(d, patches, 0, PatchAll(d, patches, 0))
  {
    forall i | 0 <= i < |d.skus| ensures PatchedUpTo(patches, 0, d.skus[i], d.skus[i]) {
      forall k: nat ensures !NamesSku(patches, 0, k, d.skus[i]) {}
    }
  }

  lemma NextPatch(d: Document, patches: seq<Patch>, n: nat)
    requires n < |patches| && PatchAll(d, patches, n).problem.None?
    ensures PatchAll(d, patches, n + 1) == PatchOne(PatchAll(d, patches, n), patches, n)
  {
  }

  lemma PatchedStayDistinct(d: Document, patches: seq<Patch>, n: nat)
    requires DocInv(d) && n <= |patches|
    ensures Distinct(PatchAll(d, patches, n).doc.skus)
  {
    PatchAllKeeps(d, patches, n);
  }

  lemma PatchStep(d: Document, patches: seq<Patch>, n: nat, s: Patching)
    requires n < |patches| && PatchedSoFar(d, patches, n, s) && Distinct(s.doc.skus) && PatchOne(s, patches, n).problem.None?
    ensures PatchedSoFar(d, patches, n + 1, PatchOne(s, patches, n))
  {
    SameSequences(d, s.doc, patches, n, s);
    var i := PatchOneStep(s, patches, n);
    SoFarOneMore(d, patches, n, s, PatchOne(s, patches, n), i);
  }

  /** Exactly the named SKUs changed, each as its patch says, and the answer lists them in order. */
  ghost predicate PatchedAsAsked(d: Document, after: Document, c: Command, o: Outcome)
    requires c.PatchSkus?
  {
    && o.Patched? && |after.skus| == |d.skus| && |o.configured| == |c.patches|
    && after == d.(skus := after.skus, commands := d.commands + [Receipt(c, o)])
    && (forall i | 0 <= i < |d.skus| :: PatchedUpTo(c.patches, |c.patches|, d.skus[i], after.skus[i]))
    && forall k | 0 <= k < |c.patches| ::
         exists i :: 0 <= i < |d.skus| && d.skus[i].sequence == c.patches[k].sku && o.configured[k] == View(after.skus[i])
  }

  lemma PatchTxKeepsPromise(d: Document, c: Command)
    requires c.PatchSkus? && DocInv(d) && !HasReceipt(d.commands, c.commandId) && PatchTx(d, c).1.Ok?
    ensures PatchedAsAsked(d, PatchTx(d, c).0, c, PatchTx(d, c).1.value)
  {
    PatchAllKeepsPromise(d, c.patches, |c.patches|);
    var s := PatchAll(d, c.patches, |c.patches|);
    forall k | 0 <= k < |c.patches|
      ensures exists i :: 0 <= i < |d.skus| && d.skus[i].sequence == c.patches[k].sku && s.affected[k] == View(s.doc.skus[i])
    {
      assert Answered(d, c.patches[k], s, k);
    }
  }

  // ----- copying -----

  /** A copied field has the source's value, unless it had one and was not to be overwritten; every other field stays. */
  predicate CopiesAsPromised(source: Config, target: Config, fields: seq<Field>, overwrite: bool, after: Config) {
    && after.status == target.status
    && after.retail == (if RetailField in fields && (overwrite || target.retail.None?) then source.retail else target.retail)
    && after.supply == (if SupplyField in fields && (overwrite || target.supply.None?) then source.supply else target.supply)
    && after.image == (if ImageField in fields && (overwrite || target.image.None?) then source.image else target.image)
  }

  lemma {:induction false} CopyKeepsPromise(source: Config, target: Config, fields: seq<Field>, overwrite: bool)
    ensures CopiesAsPromised(source, target, fields, overwrite, CopyFields(source, target, fields, overwrite))
  {
    if fields != [] {
      CopyKeepsPromise(source, target, fields[..|fields| - 1], overwrite);
      assert fields == fields[..|fields| - 1] + [fields[|fields| - 1]];
    }
  }

  /** Copied to the first n targets: each of them under its next version, nothing else. */
  predicate CopiedSoFar(d: Document, source: Config, c: Command, n: nat, s: Document)
    requires c.CopySku? && n <= |c.targets|
  {
    && s == d.(skus := s.skus) && |s.skus| == |d.skus|
    && forall i | 0 <= i < |d.skus| ::
         if d.skus[i].sequence in c.targets[..n]
         then && s.skus[i] == d.skus[i].(config := s.skus[i].config, configVersion := d.skus[i].configVersion + 1)
              && CopiesAsPromised(source, d.skus[i].config, c.fields, c.overwrite, s.skus[i].config)
         else s.skus[i] == d.skus[i]
  }

  lemma {:induction false} ActiveAt(skus: seq<Sku>, sequence: nat) returns (i: nat)
    requires exists i :: 0 <= i < |skus| && skus[i].sequence == sequence && !skus[i].archived
    ensures i < |skus| && skus[i] == FindActive(skus, sequence)
  {
    if skus[0].sequence == sequence && !skus[0].archived { i := 0; } else {
      i := ActiveAt(skus[1..], sequence);
      i := i + 1;
    }
  }

  lemma CopyToStep(s: Patching, source: Config, target: nat, c: Command) returns (i: nat)
    requires c.CopySku? && Distinct(s.doc.skus) && ActiveSku(s.doc, target)
    ensures i < |s.doc.skus| && s.doc.skus[i].sequence == target
    ensures var t := CopyTo(s, source, target, c);
            && |t.doc.skus| == |s.doc.skus| && t.doc == s.doc.(skus := t.doc.skus)
            && t.doc.skus[i] == s.doc.skus[i].(config := t.doc.skus[i].config, configVersion := s.doc.skus[i].configVersion + 1)
            && CopiesAsPromised(source, s.doc.skus[i].config, c.fields, c.overwrite, t.doc.skus[i].config)
            && forall j | 0 <= j < |s.doc.skus| && j != i :: s.doc.skus[j].sequence != target && t.doc.skus[j] == s.doc.skus[j]
  {
    i := ActiveAt(s.doc.skus, target);
    var sku := CopiedSku(s.doc.skus[i], source, c);
    CopyKeepsPromise(source, s.doc.skus[i].config, c.fields, c.overwrite);
    forall j | 0 <= j < |s.doc.skus|
      ensures |Replaced(s.doc.skus, sku)| == |s.doc.skus| && Replaced(s.doc.skus, sku)[j] == if j == i then sku else s.doc.skus[j]
      ensures j != i ==> s.doc.skus[j].sequence != target
    {
      ReplacedAt(s.doc.skus, sku, j);
      DistinctAt(s.doc.skus, i, j);
    }
  }

  lemma {:induction false} CopyAllKeepsPromise(d: Document, source: Config, c: Command, n: nat)
    requires c.CopySku? && DocInv(d) && TargetsDistinct(c.targets) && n <= |c.targets|
    requires forall k | 0 <= k < |c.targets| :: ActiveSku(d, c.targets[k])
    ensures CopiedSoFar(d, source, c, n, CopyAll(d, source, c.targets[..n], c).doc)
  {
    if n > 0 {
      var s := CopyAll(d, source, c.targets[..n - 1], c);
      assert c.targets[..n][..n - 1] == c.targets[..n - 1];
      CopyAllKeepsPromise(d, source, c, n - 1);
      CopyAllKeeps(d, source, c.targets[..n - 1], c);
      CopyStep(d, source, c, n - 1, s);
    }
  }

  lemma CopyStep(d: Document, source: Config, c: Command, n: nat, s: Patching)
    requires c.CopySku? && TargetsDistinct(c.targets) && n < |c.targets| && ActiveSku(d, c.targets[n]) && Distinct(s.doc.skus)
    requires CopiedSoFar(d, source, c, n, s.doc)
    ensures CopiedSoFar(d, source, c, n + 1, CopyTo(s, source, c.targets[n], c).doc)
  {
    StillActive(d, source, c, n, s.doc, c.targets[n]);
    var i := CopyToStep(s, source, c.targets[n], c);
    CopiedOneMore(d, source, c, n, s.doc, CopyTo(s, source, c.targets[n], c).doc, i);
  }

  lemma StillActive(d: Document, source: Config, c: Command, n: nat, s: Document, target: nat)
    requires c.CopySku? && n <= |c.targets| && CopiedSoFar(d, source, c, n, s) && ActiveSku(d, target)
    ensures ActiveSku(s, target)
  {
    var i :| 0 <= i < |d.skus| && d.skus[i].sequence == target && !d.skus[i].archived;
    assert s.skus[i].sequence == target && !s.skus[i].archived;
  }

  lemma CopiedOneMore(d: Document, source: Config, c: Command, n: nat, s: Document, t: Document, i: nat)
    requires c.CopySku? && n < |c.targets| && TargetsDistinct(c.targets) && CopiedSoFar(d, source, c, n, s) && i < |d.skus|
    requires |t.skus| == |s.skus| && t == s.(skus := t.skus) && s.skus[i].sequence == c.targets[n]
    requires t.skus[i] == s.skus[i].(config := t.skus[i].config, configVersion := s.skus[i].configVersion + 1)
    requires CopiesAsPromised(source, s.skus[i].config, c.fields, c.overwrite, t.skus[i].config)
    requires forall j | 0 <= j < |s.skus| && j != i :: s.skus[j].sequence != c.targets[n] && t.skus[j] == s.skus[j]
    ensures CopiedSoFar(d, source, c, n + 1, t)
  {
    assert c.targets[..n + 1] == c.targets[..n] + [c.targets[n]];
    assert c.targets[n] !in c.targets[..n];
  }

  /** Every target, and nothing else, got the copied fields of the one source. */
  predicate CopiedAsAsked(d: Document, after: Document, c: Command, o: Outcome)
    requires c.CopySku?
  {
    && IsLive(d, c.source) && c.source !in c.targets && (forall k | 0 <= k < |c.targets| :: IsLive(d, c.targets[k]))
    && after.commands == d.commands + [Receipt(c, o)]
    && forall i | 0 <= i < |d.skus| && d.skus[i].sequence == c.source && !d.skus[i].archived ::
         CopiedSoFar(d, d.skus[i].config, c, |c.targets|, after.(commands := d.commands))
  }

  lemma CopyTxKeepsPromise(d: Document, c: Command)
    requires c.CopySku? && DocInv(d) && TargetsDistinct(c.targets) && !HasReceipt(d.commands, c.commandId) && CopyTx(d, c).1.Ok?
    ensures CopiedAsAsked(d, CopyTx(d, c).0, c, CopyTx(d, c).1.value)
  {
    forall i | 0 <= i < |d.skus| && d.skus[i].sequence == c.source && !d.skus[i].archived
      ensures CopiedSoFar(d, d.skus[i].config, c, |c.targets|, CopyTx(d, c).0.(commands := d.commands))
    {
      CopiedFrom(d, c, i);
    }
    CopyChecks(d, c);
  }

  lemma CopyChecks(d: Document, c: Command)
    requires c.CopySku? && DocInv(d) && !HasReceipt(d.commands, c.commandId) && CopyTx(d, c).1.Ok?
    ensures ActiveSku(d, c.source) && c.source !in c.targets && forall k | 0 <= k < |c.targets| :: ActiveSku(d, c.targets[k])
    ensures CopyTx(d, c).0.commands == d.commands + [Receipt(c, CopyTx(d, c).1.value)]
    ensures CopyTx(d, c).0.(commands := d.commands) == CopyAll(d, FindActive(d.skus, c.source).config, c.targets, c).doc
  {
    CopyAllKeeps(d, FindActive(d.skus, c.source).config, c.targets, c);
  }

  lemma CopiedFrom(d: Document, c: Command, i: nat)
    requires c.CopySku? && DocInv(d) && TargetsDistinct(c.targets) && !HasReceipt(d.commands, c.commandId) && CopyTx(d, c).1.Ok?
    requires i < |d.skus| && d.skus[i].sequence == c.source && !d.skus[i].archived
    ensures CopiedSoFar(d, d.skus[i].config, c, |c.targets|, CopyTx(d, c).0.(commands := d.commands))
  {
    CopyChecks(d, c);
    var j := ActiveAt(d.skus, c.source);
    DistinctAt(d.skus, i, j);
    CopyAllKeepsPromise(d, d.skus[i].config, c, |c.targets|);
    assert c.targets[..|c.targets|] == c.targets;
  }
}
