/** Which source files pass the audit, and what a dataset made from them holds, told from their records alone. */
module SourceVerdict {
  import opened Basics
  import opened RowOrder
  import opened ExternalSort
  import opened SourceAudit
  import opened AuditReport
  import opened AreaStore

  predicate IsParent(q: SourceRow, r: SourceRow) { q.ancestors + [q.code] == r.ancestors }

  predicate HasParent(above: seq<SourceRow>, r: SourceRow) { exists q :: q in above && IsParent(q, r) }

  /** The record is the only version of its code, well formed, and hangs below a record one level up. */
  predicate RecordFits(sources: seq<Source>, k: nat, r: SourceRow)
    requires k < |sources| && sources[k].Rows? && (k > 0 ==> sources[k - 1].Rows?)
  {
    && OnlyVersion(sources[k].csv, r) && WellFormed(r, k + 1)
    && (k == 0 || HasParent(sources[k - 1].csv, r))
  }

  predicate FileFits(sources: seq<Source>, k: nat)
    requires k < |sources|
  {
    sources[k].Rows? && (k > 0 ==> sources[k - 1].Rows?) && forall r | r in sources[k].csv :: RecordFits(sources, k, r)
  }

  /** Five files, and as many ancestor columns in each as there are levels above it. */
  lemma ReadableIff(sources: seq<Source>)
    ensures Readable(sources) <==>
            && |sources| == 5
            && forall k, i | 0 <= k < 5 && sources[k].Rows? && 0 <= i < |sources[k].csv| :: |sources[k].csv[i].ancestors| == k
  {
    if |sources| == 5 && forall k, i | 0 <= k < 5 && sources[k].Rows? && 0 <= i < |sources[k].csv| :: |sources[k].csv[i].ancestors| == k {
      forall k, r | 0 <= k < 5 && sources[k].Rows? && r in sources[k].csv ensures |r.ancestors| == k {
        var i :| 0 <= i < |sources[k].csv| && sources[k].csv[i] == r;
      }
    }
  }

  lemma SameRecords(csv: seq<SourceRow>, r: SourceRow)
    ensures r in SortRows(csv) <==> r in csv
    ensures OnlyVersion(SortRows(csv), r) <==> OnlyVersion(csv, r)
  {
    forall q ensures q in SortRows(csv) <==> q in csv {
      SortRowsSorted(csv);
      assert q in multiset(SortRows(csv)) <==> q in multiset(csv);
    }
    VersionByRecord(csv, r);
    VersionByRecord(SortRows(csv), r);
  }

  lemma VersionByRecord(rows: seq<SourceRow>, r: SourceRow)
    ensures OnlyVersion(rows, r) <==> forall q | q in rows && q.code == r.code :: q == r
  {
    if forall q | q in rows && q.code == r.code :: q == r {
      forall i | 0 <= i < |rows| && rows[i].code == r.code ensures rows[i] == r { assert rows[i] in rows; }
    }
  }

  lemma SameVersions(csv: seq<SourceRow>)
    ensures forall r :: (r in SortRows(csv) <==> r in csv) && (OnlyVersion(SortRows(csv), r) <==> OnlyVersion(csv, r))
  {
    forall r ensures (r in SortRows(csv) <==> r in csv) && (OnlyVersion(SortRows(csv), r) <==> OnlyVersion(csv, r)) { SameRecords(csv, r); }
  }

  predicate Fits(csv: seq<SourceRow>, level: nat, parents: Index, r: SourceRow) {
    OnlyVersion(csv, r) && WellFormed(r, level) && HangsBelow(r, level, parents)
  }

  /** A file that can be read is clean exactly when each of its records fits the rows emitted above. */
  lemma LevelCleanIff(sources: seq<Source>, m: Manifest, results: seq<LevelResult>, k: nat)
    requires Readable(sources) && AuditsSource(sources, m, results) && k < |results|
    ensures sources[k].Broken? ==> !Clean(results[k].counts)
    ensures sources[k].Rows? ==>
              (Clean(results[k].counts) <==> forall r | r in sources[k].csv :: Fits(sources[k].csv, k + 1, ParentsOf(results, k), r))
  {
    AuditedHere(sources, m, results, k);
    if sources[k].Rows? {
      CleanIff(SortRows(sources[k].csv), k + 1, ParentsOf(results, k), m, results[k]);
      SameVersions(sources[k].csv);
    }
  }

  /** What a file emits, in terms of its own records. */
  lemma LevelEmits(sources: seq<Source>, m: Manifest, results: seq<LevelResult>, k: nat)
    requires Readable(sources) && AuditsSource(sources, m, results) && k < |results| && sources[k].Rows?
    ensures forall c | c in results[k].rows :: exists r :: r in sources[k].csv && CarriesOver(c, r, k + 1, m)
    ensures Clean(results[k].counts) ==> forall r | r in sources[k].csv :: exists c :: c in results[k].rows && CarriesOver(c, r, k + 1, m)
    ensures Ascending(results[k].rows)
  {
    AuditedHere(sources, m, results, k);
    AuditEmitsSource(SortRows(sources[k].csv), k + 1, ParentsOf(results, k), m, results[k]);
    CleanIff(SortRows(sources[k].csv), k + 1, ParentsOf(results, k), m, results[k]);
    SameVersions(sources[k].csv);
  }

  lemma EmittedFor(sources: seq<Source>, m: Manifest, results: seq<LevelResult>, k: nat, r: SourceRow) returns (c: CanonicalRow)
    requires Readable(sources) && AuditsSource(sources, m, results) && k < |results| && sources[k].Rows? && r in sources[k].csv
    requires Clean(results[k].counts)
    ensures c in results[k].rows && CarriesOver(c, r, k + 1, m)
  {
    LevelEmits(sources, m, results, k);
    c :| c in results[k].rows && CarriesOver(c, r, k + 1, m);
  }

  /** Below a clean level, hanging below an emitted row is hanging below a record. */
  lemma HangsIff(above: seq<SourceRow>, m: Manifest, out: seq<CanonicalRow>, k: nat, r: SourceRow)
    requires k > 0 && Ascending(out)
    requires forall c | c in out :: exists q :: q in above && CarriesOver(c, q, k, m)
    requires forall q | q in above :: exists c :: c in out && CarriesOver(c, q, k, m)
    ensures HangsBelow(r, k + 1, IndexOf(out)) <==> HasParent(above, r)
  {
    if HangsBelow(r, k + 1, IndexOf(out)) {
      var last := r.ancestors[|r.ancestors| - 1];
      IndexLookup(out, last);
      var q :| q in above && CarriesOver(IndexOf(out)[last], q, k, m);
      assert IsParent(q, r);
    }
    if q :| q in above && IsParent(q, r) {
      var c :| c in out && CarriesOver(c, q, k, m);
      IndexFinds(out, c);
      assert r.ancestors[|r.ancestors| - 1] == c.code;
    }
  }

  lemma CleanIffFits(sources: seq<Source>, m: Manifest, results: seq<LevelResult>, k: nat)
    requires Readable(sources) && AuditsSource(sources, m, results) && k < |results| && (k > 0 ==> sources[k - 1].Rows? && Clean(results[k - 1].counts))
    ensures Clean(results[k].counts) <==> FileFits(sources, k)
  {
    LevelCleanIff(sources, m, results, k);
    if k > 0 {
      LevelEmits(sources, m, results, k - 1);
      forall r | sources[k].Rows? && r in sources[k].csv
        ensures HangsBelow(r, k + 1, ParentsOf(results, k)) <==> HasParent(sources[k - 1].csv, r)
      {
        HangsIff(sources[k - 1].csv, m, results[k - 1].rows, k, r);
      }
    }
  }

  lemma {:induction false} CleanUpTo(sources: seq<Source>, m: Manifest, results: seq<LevelResult>, n: nat)
    requires Readable(sources) && AuditsSource(sources, m, results) && n <= |results|
    ensures (forall k | 0 <= k < n :: Clean(results[k].counts)) <==> forall k | 0 <= k < n :: FileFits(sources, k)
  {
    if n > 0 {
      CleanUpTo(sources, m, results, n - 1);
      if forall k | 0 <= k < n - 1 :: Clean(results[k].counts) {
        if n > 1 { LevelCleanIff(sources, m, results, n - 2); }
        CleanIffFits(sources, m, results, n - 1);
      }
    }
  }

  /** The audit passes exactly when every file can be read and every record fits. */
  lemma PassedIff(sources: seq<Source>, m: Manifest, results: seq<LevelResult>)
    requires Readable(sources) && AuditsSource(sources, m, results) && |results| == LEVELS
    ensures Passed(results) <==> forall k | 0 <= k < 5 :: FileFits(sources, k)
  {
    CleanUpTo(sources, m, results, 5);
    assert Passed(results) <==> forall k | 0 <= k < |results| :: Clean(results[k].counts) by {
      if Passed(results) { forall k | 0 <= k < |results| ensures Clean(results[k].counts) { assert results[k] in results; } }
    }
  }

  // ----- what is stored of a record -----

  predicate StoredAs(region: Region, r: SourceRow, level: nat, m: Manifest) {
    && region.name == r.name && region.level == level && region.parent == ParentOfRow(r)
    && region.kind == if IsGroup(m, r, level) then Group else UnknownKind
  }

  /** Every record is stored under its code as it is, and nothing else is. */
  ghost predicate Published(sources: seq<Source>, m: Manifest, regions: Regions)
    requires |sources| == 5
  {
    && (forall k, r | 0 <= k < 5 && sources[k].Rows? && r in sources[k].csv :: r.code in regions && StoredAs(regions[r.code], r, k + 1, m))
    && forall c | c in regions :: exists k, r :: 0 <= k < 5 && sources[k].Rows? && r in sources[k].csv && r.code == c
  }
}
