/** Importing an audited source: batches that may be cut off anywhere, replays, and the digest gate. */
module AreaImport {
  import opened Basics
  import opened RowOrder
  import opened CodeOrder
  import opened SourceAudit
  import opened AuditReport
  import opened AreaStore
  import opened SourceVerdict

  /** The verified source of one attempt: its identity, its canonical rows and the audit's report on them. */
  datatype Audited = Audited(identity: string, levels: seq<seq<CanonicalRow>>, report: Report)

  function RowLine(row: CanonicalRow): Line { LineOf(row.code, AsRegion(row)) }

  function CanonicalLines(rows: seq<CanonicalRow>): (lines: seq<Line>)
    ensures |lines| == |rows| && forall i | 0 <= i < |rows| :: lines[i] == RowLine(rows[i])
  {
    seq(|rows|, i requires 0 <= i < |rows| => RowLine(rows[i]))
  }

  predicate Verified(a: Audited) {
    && |a.levels| == LEVELS && Forest(a.levels) && a.report.passed
    && |a.report.sourceDigests| == LEVELS && a.report.valid == Counts(a.report.sourceDigests)
    && forall k | 0 <= k < LEVELS :: a.report.sourceDigests[k] == CanonicalLines(a.levels[k])
  }

  // ----- what the stored regions are worth at any moment -----

  predicate Has(regions: Regions, row: CanonicalRow) { row.code in regions && regions[row.code] == AsRegion(row) }

  predicate HasUpTo(regions: Regions, rows: seq<CanonicalRow>, n: nat)
    requires n <= |rows|
  {
    forall i | 0 <= i < n :: Has(regions, rows[i])
  }

  /** The stored region is the canonical row of its code. */
  ghost predicate FromSource(levels: seq<seq<CanonicalRow>>, regions: Regions, code: string)
    requires code in regions
  {
    exists k, row :: 0 <= k < |levels| && row in levels[k] && row.code == code && Has(regions, row)
  }

  predicate ParentPresent(regions: Regions, code: string)
    requires code in regions
  {
    var r := regions[code];
    if r.level == 1 then r.parent.None?
    else r.parent.Some? && r.parent.value in regions && regions[r.parent.value].level + 1 == r.level
  }

  /** An ancestor-closed part of the canonical rows. */
  ghost predicate Partial(levels: seq<seq<CanonicalRow>>, regions: Regions) {
    forall code | code in regions :: FromSource(levels, regions, code) && ParentPresent(regions, code)
  }

  /** Exactly the canonical rows. */
  ghost predicate Complete(levels: seq<seq<CanonicalRow>>, regions: Regions) {
    Partial(levels, regions) && forall k | 0 <= k < |levels| :: HasUpTo(regions, levels[k], |levels[k]|)
  }

  ghost predicate Sound(a: Audited, dataset: Option<Dataset>) {
    dataset.Some? ==>
      && dataset.value.identity == a.identity && Partial(a.levels, dataset.value.regions)
      && (dataset.value.status == Ready ==> Complete(a.levels, dataset.value.regions))
  }

  predicate Keeps(before: Regions, after: Regions) { forall c | c in before :: c in after && after[c] == before[c] }

  /** What one attempt, cut off or not, may have done to the stored dataset. */
  ghost predicate AttemptOutcome(a: Audited, before: Option<Dataset>, after: Option<Dataset>) {
    && Sound(a, after)
    && (before.Some? ==> after.Some? && Keeps(before.value.regions, after.value.regions))
    && (before.Some? && before.value.status == Ready ==> after == before)
  }

  // ----- one batch -----

  /** While level k + 1 loads: everything above is stored, and its first n rows. */
  ghost predicate Loading(a: Audited, dataset: Option<Dataset>, k: nat, n: nat)
    requires |a.levels| == LEVELS
  {
    && dataset.Some? && dataset.value.status == Importing && dataset.value.identity == a.identity
    && Partial(a.levels, dataset.value.regions)
    && k <= LEVELS && (forall j | 0 <= j < k :: HasUpTo(dataset.value.regions, a.levels[j], |a.levels[j]|))
    && (k < LEVELS ==> n <= |a.levels[k]| && HasUpTo(dataset.value.regions, a.levels[k], n))
  }

  /** The i-th ancestor code of a canonical row names a canonical row on level i + 1 with the prefix as its ancestors. */
  lemma {:induction false} AncestorRow(levels: seq<seq<CanonicalRow>>, row: CanonicalRow, k: nat, i: nat) returns (p: CanonicalRow)
    requires Forest(levels) && k < |levels| && row in levels[k] && i < k
    ensures |row.ancestors| == k
    ensures p in levels[i] && p.level == i + 1 && p.code == row.ancestors[i] && p.parentCode == if i == 0 then None else Some(row.ancestors[i - 1])
    decreases k
  {
    AncestorsAreRootPaths(levels, row, k);
    var q := ParentOf(levels, row, k);
    AncestorsAreRootPaths(levels, q, k - 1);
    if i == k - 1 {
      p := q;
      IsNode(levels, p, k - 1);
    } else {
      p := AncestorRow(levels, q, k - 1, i);
    }
  }

  lemma RowAccepted(a: Audited, d: Dataset, k: nat, n: nat, row: CanonicalRow)
    requires Verified(a) && k < LEVELS && Loading(a, Some(d), k, n) && row in a.levels[k]
    ensures RowFits(d.regions, row, k + 1)
  {
    IsNode(a.levels, row, k);
    AncestorsAreRootPaths(a.levels, row, k);
    forall i | 0 <= i < |row.ancestors| ensures AncestorStored(d.regions, row.ancestors, i) {
      var p := AncestorRow(a.levels, row, k, i);
      assert HasUpTo(d.regions, a.levels[i], |a.levels[i]|);
      assert Has(d.regions, p);
    }
    if row.code in d.regions {
      assert FromSource(a.levels, d.regions, row.code);
      var j, r :| 0 <= j < LEVELS && r in a.levels[j] && r.code == row.code && Has(d.regions, r);
      CodesAreGlobal(a.levels, j, k, r, row);
    }
  }

  lemma SliceDistinct(rows: seq<CanonicalRow>, n: nat, m: nat)
    requires Ascending(rows) && n <= m <= |rows|
    ensures CodesDistinct(rows[n..m])
  {
  }

  lemma BatchAccepted(a: Audited, d: Dataset, k: nat, n: nat, m: nat, batchSize: nat)
    requires Verified(a) && k < LEVELS && Loading(a, Some(d), k, n) && n < m <= |a.levels[k]| && m - n <= batchSize <= MAX_BATCH
    ensures Appendable(d, a.levels[k][n..m], k + 1, m, batchSize)
  {
    var rows := a.levels[k][n..m];
    assert LayerAt(a.levels, k);
    SliceDistinct(a.levels[k], n, m);
    forall j | 0 <= j < |rows| ensures RowFits(d.regions, rows[j], k + 1) {
      assert rows[j] == a.levels[k][n + j];
      RowAccepted(a, d, k, n, rows[j]);
    }
  }

  /** What a batch that fits does to the regions. */
  lemma BatchStored(regions: Regions, rows: seq<CanonicalRow>, level: nat)
    requires CodesDistinct(rows) && forall j | 0 <= j < |rows| :: RowFits(regions, rows[j], level)
    ensures Keeps(regions, Inserted(regions, rows)) && forall j | 0 <= j < |rows| :: Has(Inserted(regions, rows), rows[j])
    ensures forall c | c in Inserted(regions, rows) && c !in regions :: exists j :: 0 <= j < |rows| && rows[j].code == c
  {
    var after := Inserted(regions, rows);
    InsertedAt(regions, rows, "");
    forall c | c in regions ensures c in after && after[c] == regions[c] {
      InsertedAt(regions, rows, c);
      if r :| r in rows && r.code == c {
        var j :| 0 <= j < |rows| && rows[j] == r;
        assert RowFits(regions, rows[j], level);
      }
    }
    forall c | c in after && c !in regions ensures exists j :: 0 <= j < |rows| && rows[j].code == c {
      InsertedAt(regions, rows, c);
      var r :| r in rows && r.code == c;
      var j :| 0 <= j < |rows| && rows[j] == r;
      assert rows[j].code == c;
    }
  }

  lemma ParentOfFits(regions: Regions, row: CanonicalRow, level: nat)
    requires RowFits(regions, row, level)
    ensures if level == 1 then row.parentCode.None?
            else row.parentCode.Some? && row.parentCode.value in regions && regions[row.parentCode.value].level + 1 == level
  {
    if level > 1 { assert AncestorStored(regions, row.ancestors, level - 2); }
  }

  lemma BatchLoads(a: Audited, d: Dataset, k: nat, n: nat, m: nat, batchSize: nat)
    requires Verified(a) && k < LEVELS && Loading(a, Some(d), k, n) && n < m <= |a.levels[k]|
    requires Appendable(d, a.levels[k][n..m], k + 1, m, batchSize)
    ensures Loading(a, Some(Appended(d, a.levels[k][n..m])), k, m)
    ensures Keeps(d.regions, Inserted(d.regions, a.levels[k][n..m]))
  {
    var rows := a.levels[k][n..m];
    var after := Inserted(d.regions, rows);
    BatchStored(d.regions, rows, k + 1);
    PrefixStored(a.levels[k], n, m, d.regions, after);
    SliceMembers(a.levels[k], n, m);
    StillPartial(a.levels, d.regions, rows, after, k);
  }

  lemma SliceMembers(level: seq<CanonicalRow>, n: nat, m: nat)
    requires n <= m <= |level|
    ensures forall j | 0 <= j < m - n :: level[n..m][j] in level
  {
    forall j | 0 <= j < m - n ensures level[n..m][j] in level { assert level[n..m][j] == level[n + j]; }
  }

  lemma PrefixStored(level: seq<CanonicalRow>, n: nat, m: nat, before: Regions, after: Regions)
    requires n <= m <= |level| && Keeps(before, after)
    requires forall i | 0 <= i < n :: Has(before, level[i])
    requires forall j | 0 <= j < m - n :: Has(after, level[n..m][j])
    ensures forall i | 0 <= i < m :: Has(after, level[i])
  {
    forall i | 0 <= i < m ensures Has(after, level[i]) {
      if i >= n { assert level[i] == level[n..m][i - n]; }
    }
  }

  lemma StillPartial(levels: seq<seq<CanonicalRow>>, before: Regions, rows: seq<CanonicalRow>, after: Regions, k: nat)
    requires k < |levels| && Partial(levels, before) && Keeps(before, after)
    requires forall j | 0 <= j < |rows| :: rows[j] in levels[k] && Has(after, rows[j]) && RowFits(before, rows[j], k + 1)
    requires forall c | c in after && c !in before :: exists j :: 0 <= j < |rows| && rows[j].code == c
    ensures Partial(levels, after)
  {
    forall c | c in after ensures FromSource(levels, after, c) && ParentPresent(after, c) {
      if c !in before {
        var j :| 0 <= j < |rows| && rows[j].code == c;
        NewRowIsSound(levels, before, after, k, rows[j]);
      }
    }
  }

  lemma NewRowIsSound(levels: seq<seq<CanonicalRow>>, before: Regions, after: Regions, k: nat, row: CanonicalRow)
    requires k < |levels| && row in levels[k] && Has(after, row) && RowFits(before, row, k + 1) && Keeps(before, after)
    ensures FromSource(levels, after, row.code) && ParentPresent(after, row.code)
  {
    ParentOfFits(before, row, k + 1);
  }

  // ----- the digest gate tells a complete dataset from every other partial one -----

  lemma StoredCodeIsCanonical(levels: seq<seq<CanonicalRow>>, regions: Regions, k: nat, c: string)
    requires Forest(levels) && |levels| == LEVELS && k < LEVELS && Partial(levels, regions) && c in OnLevel(regions, k + 1)
    ensures c in Codes(levels[k])
  {
    assert FromSource(levels, regions, c);
    var j, row :| 0 <= j < |levels| && row in levels[j] && row.code == c && Has(regions, row);
    IsNode(levels, row, j);
    var i :| 0 <= i < |levels[k]| && levels[k][i] == row;
    assert Codes(levels[k])[i] == c;
  }

  lemma CanonicalCodeIsStored(levels: seq<seq<CanonicalRow>>, regions: Regions, k: nat, c: string)
    requires Forest(levels) && |levels| == LEVELS && k < LEVELS && HasUpTo(regions, levels[k], |levels[k]|) && c in Codes(levels[k])
    ensures c in OnLevel(regions, k + 1)
  {
    var i :| 0 <= i < |levels[k]| && levels[k][i].code == c;
    IsNode(levels, levels[k][i], k);
  }

  lemma CompleteLevelReadsBack(levels: seq<seq<CanonicalRow>>, regions: Regions, k: nat)
    requires Forest(levels) && |levels| == LEVELS && k < LEVELS && Complete(levels, regions)
    ensures StoredLines(regions, k + 1) == CanonicalLines(levels[k])
  {
    var listed, codes := InOrder(OnLevel(regions, k + 1)), Codes(levels[k]);
    assert HasUpTo(regions, levels[k], |levels[k]|) && LayerAt(levels, k);
    forall c ensures c in listed <==> c in codes {
      if c in listed { StoredCodeIsCanonical(levels, regions, k, c); }
      if c in codes { CanonicalCodeIsStored(levels, regions, k, c); }
    }
    ListingUnique(listed, codes);
  }

  lemma PartialHangs(levels: seq<seq<CanonicalRow>>, regions: Regions, level: nat)
    requires Partial(levels, regions) && level >= 1
    ensures LevelHangs(regions, level)
  {
    forall l | l in StoredLines(regions, level) ensures Hangs(regions, l) {
      LinesMatchRegions(regions, level, l);
      assert ParentPresent(regions, l.code);
    }
  }

  lemma SummaryIs(levels: seq<LevelAudit>, digests: seq<seq<Line>>)
    requires |levels| == |digests| && forall k | 0 <= k < |levels| :: levels[k] == LevelAudit(true, digests[k])
    ensures Summary(levels) == DatasetAudit(true, digests)
  {
    SummaryCovers(levels);
    assert Summary(levels).digests == digests;
  }

  lemma DigestIsLevel(regions: Regions, k: nat)
    requires k < LEVELS
    ensures AuditOf(regions).digests[k] == StoredLines(regions, k + 1)
  {
    LevelAuditsAt(regions, k);
    SummaryCovers(LevelAudits(regions));
  }

  lemma ReadBackHasRow(regions: Regions, k: nat, row: CanonicalRow)
    requires RowLine(row) in StoredLines(regions, k + 1)
    ensures Has(regions, row)
  {
    LinesMatchRegions(regions, k + 1, RowLine(row));
  }

  lemma ReadBackImpliesHas(a: Audited, regions: Regions, k: nat)
    requires Verified(a) && k < LEVELS && AuditOf(regions).digests == a.report.sourceDigests
    ensures HasUpTo(regions, a.levels[k], |a.levels[k]|)
  {
    DigestIsLevel(regions, k);
    forall i | 0 <= i < |a.levels[k]| ensures Has(regions, a.levels[k][i]) {
      assert CanonicalLines(a.levels[k])[i] == RowLine(a.levels[k][i]);
      ReadBackHasRow(regions, k, a.levels[k][i]);
    }
  }

  lemma DigestGateIsExact(a: Audited, regions: Regions)
    requires Verified(a) && Partial(a.levels, regions)
    ensures AuditOf(regions) == DatasetAudit(true, a.report.sourceDigests) <==> Complete(a.levels, regions)
  {
    if AuditOf(regions).digests == a.report.sourceDigests {
      forall k | 0 <= k < LEVELS ensures HasUpTo(regions, a.levels[k], |a.levels[k]|) { ReadBackImpliesHas(a, regions, k); }
    }
    if Complete(a.levels, regions) {
      CompleteReadsBack(a, regions);
    }
  }

  lemma CompleteReadsBack(a: Audited, regions: Regions)
    requires Verified(a) && Complete(a.levels, regions)
    ensures AuditOf(regions) == DatasetAudit(true, a.report.sourceDigests)
  {
    forall k | 0 <= k < LEVELS ensures LevelAudits(regions)[k] == LevelAudit(true, a.report.sourceDigests[k]) {
      LevelAuditsAt(regions, k);
      PartialHangs(a.levels, regions, k + 1);
      CompleteLevelReadsBack(a.levels, regions, k);
    }
    SummaryIs(LevelAudits(regions), a.report.sourceDigests);
  }

  // ----- the runner -----

  predicate Batched(rows: seq<CanonicalRow>, committed: nat, i: nat, batch: seq<CanonicalRow>, digest: seq<Line>) {
    committed <= i <= |rows| && batch == rows[committed..i] && digest == CanonicalLines(rows)[..i]
  }

  lemma RowBatched(rows: seq<CanonicalRow>, committed: nat, i: nat, batch: seq<CanonicalRow>, digest: seq<Line>)
    requires Batched(rows, committed, i, batch, digest) && i < |rows|
    ensures Batched(rows, committed, i + 1, batch + [rows[i]], digest + [RowLine(rows[i])])
  {
  }

  /** One level in batches, and the gate that compares what was sent with the report. */
  method AppendLevel(s: ImportSession, a: Audited, k: nat, batchSize: nat) returns (r: Option<Error>)
    requires Verified(a) && k < LEVELS && 1 <= batchSize <= MAX_BATCH && Loading(a, s.dataset, k, 0)
    modifies s
    ensures s.dataset.Some? && Keeps(old(s.dataset.value.regions), s.dataset.value.regions)
    ensures s.dataset.value.status == Importing && Sound(a, s.dataset)
    ensures r == None ==> Loading(a, s.dataset, k + 1, 0)
    ensures r.Some? ==> r == Some(Lost) && s.cut == Some(0)
    ensures s.cut.Some? == old(s.cut).Some?
  {
    var recordsCommitted, digest;
    r, recordsCommitted, digest := AppendRows(s, a, k, batchSize);
    if r.Some? { return; }
    r := if recordsCommitted != a.report.valid[k] || digest != a.report.sourceDigests[k] then Some(Conflict) else None;
  }

  /** Full batches, then a short one. */
  method AppendRows(s: ImportSession, a: Audited, k: nat, batchSize: nat) returns (r: Option<Error>, recordsCommitted: nat, digest: seq<Line>)
    requires Verified(a) && k < LEVELS && 1 <= batchSize <= MAX_BATCH && Loading(a, s.dataset, k, 0)
    modifies s
    ensures s.dataset.Some? && Keeps(old(s.dataset.value.regions), s.dataset.value.regions)
    ensures s.dataset.value.status == Importing && Sound(a, s.dataset)
    ensures r == None ==> Loading(a, s.dataset, k, |a.levels[k]|) && recordsCommitted == |a.levels[k]| && digest == CanonicalLines(a.levels[k])
    ensures r.Some? ==> r == Some(Lost) && s.cut == Some(0)
    ensures s.cut.Some? == old(s.cut).Some?
  {
    var rows := a.levels[k];
    var batch: seq<CanonicalRow> := [];
    recordsCommitted, digest := 0, [];
    for i := 0 to |rows|
      invariant Loading(a, s.dataset, k, recordsCommitted) && Keeps(old(s.dataset.value.regions), s.dataset.value.regions)
      invariant Batched(rows, recordsCommitted, i, batch, digest) && |batch| < batchSize
      invariant s.cut.Some? == old(s.cut).Some?
    {
      RowBatched(rows, recordsCommitted, i, batch, digest);
      digest := digest + [RowLine(rows[i])];
      batch := batch + [rows[i]];
      if |batch| == batchSize {
        recordsCommitted := recordsCommitted + |batch|;
        r := Commit(s, a, k, recordsCommitted - |batch|, recordsCommitted, batchSize, batch);
        if r.Some? { return; }
        batch := [];
      }
    }
    r := None;
    if |batch| > 0 {
      recordsCommitted := recordsCommitted + |batch|;
      r := Commit(s, a, k, recordsCommitted - |batch|, recordsCommitted, batchSize, batch);
    }
  }

  method Commit(s: ImportSession, a: Audited, k: nat, n: nat, m: nat, batchSize: nat, batch: seq<CanonicalRow>) returns (r: Option<Error>)
    requires Verified(a) && k < LEVELS && Loading(a, s.dataset, k, n) && n < m <= |a.levels[k]| && batch == a.levels[k][n..m]
    requires |batch| <= batchSize <= MAX_BATCH
    modifies s
    ensures s.dataset.Some? && Keeps(old(s.dataset.value.regions), s.dataset.value.regions)
    ensures r == None ==> Loading(a, s.dataset, k, m)
    ensures s.dataset.value.status == Importing && Sound(a, s.dataset)
    ensures r.Some? ==> r == Some(Lost) && s.cut == Some(0)
    ensures s.cut.Some? == old(s.cut).Some?
  {
    BatchAccepted(a, s.dataset.value, k, n, m, batchSize);
    BatchLoads(a, s.dataset.value, k, n, m, batchSize);
    r := s.AppendBatch(batch, k + 1, m, batchSize);
    assert Loading(a, s.dataset, k, n) || Loading(a, s.dataset, k, m);
  }

  lemma NoEmptyCode(a: Audited, regions: Regions)
    requires Verified(a) && Partial(a.levels, regions)
    ensures "" !in regions
  {
    forall code | code in regions ensures code != "" {
      assert FromSource(a.levels, regions, code);
      var k, row :| 0 <= k < LEVELS && row in a.levels[k] && row.code == code && Has(regions, row);
      HasCode(a.levels, row, k);
    }
  }

  lemma HasCode(levels: seq<seq<CanonicalRow>>, row: CanonicalRow, k: nat)
    requires Forest(levels) && k < |levels| && row in levels[k]
    ensures row.code != ""
  {
    IsNode(levels, row, k);
  }

  method LoadLevels(s: ImportSession, a: Audited, batchSize: nat) returns (r: Option<Error>)
    requires Verified(a) && 1 <= batchSize <= MAX_BATCH && Loading(a, s.dataset, 0, 0)
    modifies s
    ensures s.dataset.Some? && s.dataset.value.status == Importing && Sound(a, s.dataset)
    ensures Keeps(old(s.dataset.value.regions), s.dataset.value.regions)
    ensures r == None ==> Complete(a.levels, s.dataset.value.regions)
    ensures r.Some? ==> r == Some(Lost) && s.cut == Some(0)
    ensures s.cut.Some? == old(s.cut).Some?
  {
    for k := 0 to LEVELS
      invariant Loading(a, s.dataset, k, 0) && Keeps(old(s.dataset.value.regions), s.dataset.value.regions)
      invariant s.cut.Some? == old(s.cut).Some?
    {
      r := AppendLevel(s, a, k, batchSize);
      if r.Some? { return; }
    }
    r := None;
  }

  /** The database audit and the digest gate, on regions that are complete. */
  method AuditAndPublish(s: ImportSession, a: Audited) returns (r: Option<Error>)
    requires Verified(a) && s.dataset.Some? && s.dataset.value.status != Failed && Complete(a.levels, s.dataset.value.regions)
    modifies s
    ensures s.dataset == old(s.dataset) || s.dataset == Some(old(s.dataset.value).(status := Ready))
    ensures r == None ==> s.dataset.value.status == Ready
    ensures r.Some? ==> r == Some(Lost) && s.cut == Some(0)
    ensures s.cut.Some? == old(s.cut).Some?
  {
    NoEmptyCode(a, s.dataset.value.regions);
    DigestGateIsExact(a, s.dataset.value.regions);
    var database := s.AuditDataset();
    if database.Err? { return Some(database.error); }
    if database.value.passed && Counts(database.value.digests) == a.report.valid && database.value.digests == a.report.sourceDigests {
      r := s.MarkReady(a.report, database.value.digests);
    } else {
      r := Some(Conflict);
    }
  }

  /** One attempt on a verified source, under the dataset's lock. */
  method ImportVerified(s: ImportSession, a: Audited, batchSize: int) returns (r: Option<Error>)
    requires Verified(a) && Sound(a, s.dataset)
    modifies s
    ensures AttemptOutcome(a, old(s.dataset), s.dataset)
    ensures r == None ==> s.dataset.Some? && s.dataset.value.status == Ready
    ensures s.dataset.Some? && s.dataset.value.status == Failed ==> s.dataset == old(s.dataset)
    ensures r == Some(InvalidArgument) <==> !(1 <= batchSize <= MAX_BATCH)
    ensures r != Some(Conflict) && (r == Some(Lost) ==> s.cut == Some(0) && old(s.cut).Some?)
  {
    if !(1 <= batchSize <= MAX_BATCH) { return Some(InvalidArgument); }
    var status := s.EnsureDataset(a.identity);
    EnsuredIsSound(a, old(s.dataset), s.dataset);
    if status.Err? { return Some(status.error); }
    r := None;
    if status.value != Ready { r := LoadLevels(s, a, batchSize); }
    if r.None? { r := AuditAndPublish(s, a); }
    if r.Some? && status.value != Ready { var _ := s.MarkFailed(); }
  }

  lemma EnsuredIsSound(a: Audited, before: Option<Dataset>, after: Option<Dataset>)
    requires Verified(a) && Sound(a, before) && (after == before || Ensured(before, a.identity) == Ok(after))
    ensures AttemptOutcome(a, before, after) && Ensured(before, a.identity).Ok?
    ensures after.Some? && after.value.status == Importing ==> Loading(a, after, 0, 0)
  {
  }

  // ----- over any number of attempts -----

  ghost predicate Attempts(a: Audited, states: seq<Option<Dataset>>) {
    states != [] && states[0] == None && forall i | 0 < i < |states| :: AttemptOutcome(a, states[i - 1], states[i])
  }

  /** Wherever attempts were cut off, the rows are an ancestor-closed part of the source, they only
      ever grow, and a ready dataset is complete and stays as it is. */
  lemma {:induction false} AnyNumberOfAttempts(a: Audited, states: seq<Option<Dataset>>, i: nat, j: nat)
    requires Verified(a) && Attempts(a, states) && i <= j < |states|
    ensures Sound(a, states[j])
    ensures states[i].Some? ==> states[j].Some? && Keeps(states[i].value.regions, states[j].value.regions)
    ensures states[i].Some? && states[i].value.status == Ready ==> states[j] == states[i] && Complete(a.levels, states[i].value.regions)
    decreases j - i
  {
    if i < j {
      AnyNumberOfAttempts(a, states, i, j - 1);
      assert AttemptOutcome(a, states[j - 1], states[j]);
    } else if j > 0 {
      assert AttemptOutcome(a, states[j - 1], states[j]);
    }
  }

  // ----- from the CSV files to a ready dataset -----

  function Digests(levels: seq<seq<CanonicalRow>>): (digests: seq<seq<Line>>)
    ensures |digests| == |levels| && forall k | 0 <= k < |levels| :: digests[k] == CanonicalLines(levels[k])
  {
    seq(|levels|, k requires 0 <= k < |levels| => CanonicalLines(levels[k]))
  }

  function ValidCounts(results: seq<LevelResult>): (valid: seq<nat>)
    ensures |valid| == |results| && forall k | 0 <= k < |results| :: valid[k] == results[k].counts.valid
  {
    seq(|results|, k requires 0 <= k < |results| => results[k].counts.valid)
  }

  function AuditedOf(identity: string, results: seq<LevelResult>): Audited {
    Audited(identity, Levels(results), Report(true, ValidCounts(results), Digests(Levels(results))))
  }

  lemma AuditIsVerified(identity: string, sources: seq<Source>, m: Manifest, results: seq<LevelResult>)
    requires Readable(sources) && AuditsSource(sources, m, results) && |results| == LEVELS
    ensures Verified(AuditedOf(identity, results))
  {
    EmittedRowsFormAForest(sources, m, results);
    forall k | 0 <= k < LEVELS ensures results[k].counts.valid == |results[k].rows| { AuditedHere(sources, m, results, k); }
    assert ValidCounts(results) == Counts(Digests(Levels(results)));
  }

  /** The audit a caller hands in; it is believed only if a fresh audit of the files says the same. */
  datatype Claim = Claim(passed: bool, results: seq<LevelResult>)

  lemma CarriedIsStored(rows: seq<CanonicalRow>, regions: Regions, c: CanonicalRow, r: SourceRow, level: nat, m: Manifest)
    requires HasUpTo(regions, rows, |rows|) && c in rows && CarriesOver(c, r, level, m)
    ensures r.code in regions && StoredAs(regions[r.code], r, level, m)
  {
    var i :| 0 <= i < |rows| && rows[i] == c;
    assert Has(regions, rows[i]);
  }

  lemma RecordIsStored(sources: seq<Source>, m: Manifest, results: seq<LevelResult>, regions: Regions, k: nat, r: SourceRow)
    requires Readable(sources) && AuditsSource(sources, m, results) && |results| == LEVELS && k < LEVELS && Clean(results[k].counts)
    requires HasUpTo(regions, results[k].rows, |results[k].rows|) && sources[k].Rows? && r in sources[k].csv
    ensures r.code in regions && StoredAs(regions[r.code], r, k + 1, m)
  {
    var c := EmittedFor(sources, m, results, k, r);
    CarriedIsStored(results[k].rows, regions, c, r, k + 1, m);
  }

  lemma StoredIsRecord(sources: seq<Source>, m: Manifest, results: seq<LevelResult>, k: nat, row: CanonicalRow)
    requires Readable(sources) && AuditsSource(sources, m, results) && |results| == LEVELS && k < LEVELS && row in results[k].rows
    ensures sources[k].Rows? && exists r :: r in sources[k].csv && r.code == row.code
  {
    AuditedHere(sources, m, results, k);
    LevelEmits(sources, m, results, k);
    var r :| r in sources[k].csv && CarriesOver(row, r, k + 1, m);
  }

  /** A dataset that is complete after a passing audit holds the records of the files, each as it is. */
  lemma CompleteIsPublished(sources: seq<Source>, m: Manifest, results: seq<LevelResult>, regions: Regions)
    requires Readable(sources) && AuditsSource(sources, m, results) && |results| == LEVELS && Passed(results)
    requires Complete(Levels(results), regions)
    ensures Published(sources, m, regions)
  {
    forall k, r | 0 <= k < 5 && sources[k].Rows? && r in sources[k].csv ensures r.code in regions && StoredAs(regions[r.code], r, k + 1, m) {
      assert results[k] in results && HasUpTo(regions, Levels(results)[k], |Levels(results)[k]|);
      RecordIsStored(sources, m, results, regions, k, r);
    }
    forall c | c in regions ensures exists k, r :: 0 <= k < 5 && sources[k].Rows? && r in sources[k].csv && r.code == c {
      assert FromSource(Levels(results), regions, c);
      var k, row :| 0 <= k < LEVELS && row in Levels(results)[k] && row.code == c && Has(regions, row);
      StoredIsRecord(sources, m, results, k, row);
    }
  }

  method ImportAuditedSource(s: ImportSession, sources: seq<Source>, m: Manifest, identity: string, claim: Claim, batchSize: int,
                             ghost truth: seq<LevelResult>) returns (r: Option<Error>)
    requires Readable(sources) && AuditsSource(sources, m, truth) && |truth| == LEVELS
    requires Sound(AuditedOf(identity, truth), s.dataset)
    modifies s
    ensures AttemptOutcome(AuditedOf(identity, truth), old(s.dataset), s.dataset)
    ensures r == None ==> Passed(truth) && s.dataset.Some? && s.dataset.value.status == Ready
                          && Complete(Levels(truth), s.dataset.value.regions)
    ensures r == None ==> Published(sources, m, s.dataset.value.regions) && forall k | 0 <= k < 5 :: FileFits(sources, k)
    ensures 1 <= batchSize <= MAX_BATCH ==> (r == Some(Conflict) <==> claim != Claim(true, truth) || !Passed(truth))
    ensures r == Some(Conflict) ==> s.dataset == old(s.dataset)
    ensures r == Some(Lost) ==> old(s.cut).Some?
  {
    if !(1 <= batchSize <= MAX_BATCH) { return Some(InvalidArgument); }
    var again, passed := AuditSource(sources, m);
    OrderIsNotObservable(sources, sources, m, again, truth);
    if !claim.passed || !passed || again != claim.results { return Some(Conflict); }
    AuditIsVerified(identity, sources, m, truth);
    r := ImportVerified(s, AuditedOf(identity, again), batchSize);
    if r == None {
      PassedIff(sources, m, truth);
      CompleteIsPublished(sources, m, truth, s.dataset.value.regions);
    }
  }
}
