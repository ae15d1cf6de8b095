/** The audit over all five levels: what it reports, and what the canonical rows it emits look like. */
module AuditReport {
  import opened Basics
  import opened RowOrder
  import opened ExternalSort
  import opened SourceAudit

  /** One level's CSV: its records, or a file that fails its checksum or does not parse. */
  datatype Source = Broken | Rows(csv: seq<SourceRow>)

  const BROKEN_LEVEL := LevelResult(LevelReport(0, 0, 0, 0, 0, 0, 1), [])

  /** Every record of a file has the columns its header promises. */
  predicate Readable(sources: seq<Source>) {
    |sources| == LEVELS && forall k | 0 <= k < LEVELS && sources[k].Rows? :: Shaped(sources[k].csv, k + 1)
  }

  function IndexOf(rows: seq<CanonicalRow>): Index {
    if rows == [] then map[] else IndexOf(rows[..|rows| - 1])[rows[|rows| - 1].code := rows[|rows| - 1]]
  }

  function ParentsOf(results: seq<LevelResult>, k: nat): Index
    requires k <= |results|
  {
    if k == 0 then map[] else IndexOf(results[k - 1].rows)
  }

  lemma SortKeepsShape(csv: seq<SourceRow>, level: nat)
    requires Shaped(csv, level)
    ensures Shaped(SortRows(csv), level) && Sorted(SortRows(csv))
  {
    SortRowsSorted(csv);
    forall r | r in SortRows(csv) ensures r in csv { assert r in multiset(SortRows(csv)); }
  }

  ghost predicate LevelAudited(source: Source, level: nat, parents: Index, m: Manifest, result: LevelResult)
    requires source.Rows? ==> Shaped(source.csv, level)
  {
    match source
    case Broken => result == BROKEN_LEVEL
    case Rows(csv) => (SortKeepsShape(csv, level); AuditsLevel(SortRows(csv), level, parents, m, result))
  }

  ghost predicate AuditedAt(sources: seq<Source>, m: Manifest, results: seq<LevelResult>, k: nat)
    requires Readable(sources) && k < |results| <= LEVELS
  {
    LevelAudited(sources[k], k + 1, ParentsOf(results, k), m, results[k])
  }

  /** Each level is audited against the canonical rows of the level above it. */
  ghost predicate AuditsSource(sources: seq<Source>, m: Manifest, results: seq<LevelResult>)
    requires Readable(sources)
  {
    |results| <= LEVELS && forall k | 0 <= k < |results| :: AuditedAt(sources, m, results, k)
  }

  predicate Passed(results: seq<LevelResult>) { forall r | r in results :: Clean(r.counts) }

  method AuditSource(sources: seq<Source>, m: Manifest) returns (results: seq<LevelResult>, passed: bool)
    requires Readable(sources)
    ensures |results| == LEVELS && AuditsSource(sources, m, results) && (passed <==> Passed(results))
  {
    results, passed := [], true;
    var parents: Index := map[];
    for k := 0 to LEVELS
      invariant |results| == k && AuditsSource(sources, m, results) && (passed <==> Passed(results)) && parents == ParentsOf(results, k)
    {
      var result := AuditFile(sources[k], k + 1, parents, m);
      var index := BuildIndex(result.rows);
      LevelsExtend(sources, m, results, result);
      results, parents, passed := results + [result], index, passed && Clean(result.counts);
    }
  }

  method AuditFile(source: Source, level: nat, parents: Index, m: Manifest) returns (result: LevelResult)
    requires source.Rows? ==> Shaped(source.csv, level)
    ensures LevelAudited(source, level, parents, m, result)
    ensures source.Broken? ==> result.rows == [] && result.counts == LevelReport(0, 0, 0, 0, 0, 0, 1)
  {
    result := BROKEN_LEVEL;
    if source.Rows? {
      var sorted := ExternalSort.ExternalSort(source.csv);
      SortKeepsShape(source.csv, level);
      result := AuditLevel(sorted, level, parents, m);
    }
  }

  lemma LevelsExtend(sources: seq<Source>, m: Manifest, results: seq<LevelResult>, result: LevelResult)
    requires Readable(sources) && |results| < LEVELS && AuditsSource(sources, m, results)
    requires LevelAudited(sources[|results|], |results| + 1, ParentsOf(results, |results|), m, result)
    ensures AuditsSource(sources, m, results + [result])
  {
    var all := results + [result];
    forall k | 0 <= k < |all| ensures AuditedAt(sources, m, all, k) {
      assert ParentsOf(all, k) == ParentsOf(results, k);
      if k < |results| { assert AuditedAt(sources, m, results, k); }
    }
  }

  method BuildIndex(rows: seq<CanonicalRow>) returns (index: Index)
    ensures index == IndexOf(rows)
  {
    index := map[];
    for i := 0 to |rows|
      invariant index == IndexOf(rows[..i])
    {
      assert rows[..i + 1][..i] == rows[..i];
      index := index[rows[i].code := rows[i]];
    }
    assert rows[..|rows|] == rows;
  }

  // ----- a clean level loses nothing -----

  lemma {:induction false} NoMalformedRow(rows: seq<SourceRow>, level: nat, parents: Index, r: SourceRow)
    requires Shaped(rows, level) && r in rows
    requires CountMalformed(rows, level) == 0 && CountMissing(rows, level, parents) == 0 && CountMismatch(rows, level, parents) == 0
    ensures RowOk(r, level, parents)
  {
    var n := |rows| - 1;
    if r != rows[n] {
      assert rows == rows[..n] + [rows[n]];
      NoMalformedRow(rows[..n], level, parents, r);
    }
  }

  /** Every row of a clean level is emitted, and the counters add up. */
  lemma CleanLevelKeepsEveryRow(rows: seq<SourceRow>, level: nat, parents: Index, m: Manifest, result: LevelResult)
    requires Shaped(rows, level) && AuditsLevel(rows, level, parents, m, result) && Clean(result.counts)
    ensures result.counts.input == result.counts.valid + result.counts.duplicate
    ensures forall r | r in rows :: Canonical(m, r, level) in result.rows
  {
    forall r | r in rows ensures r in Accepted(rows, level, parents) && Canonical(m, r, level) in result.rows {
      assert r.code !in Conflicting(rows);
      NoMalformedRow(rows, level, parents, r);
      assert r in Accepted(rows, level, parents);
    }
    assert Distinct(rows) == Accepted(rows, level, parents);
  }

  lemma PassingReport(sources: seq<Source>, m: Manifest, results: seq<LevelResult>, k: nat)
    requires Readable(sources) && AuditsSource(sources, m, results) && Passed(results) && k < |results|
    ensures sources[k].Rows? && results[k].counts.input == |sources[k].csv|
    ensures results[k].counts.input == results[k].counts.valid + results[k].counts.duplicate
    ensures forall r | r in sources[k].csv :: Canonical(m, r, k + 1) in results[k].rows
  {
    assert results[k] in results;
    assert AuditedAt(sources, m, results, k);
    var csv := sources[k].csv;
    SortKeepsShape(csv, k + 1);
    CleanLevelKeepsEveryRow(SortRows(csv), k + 1, ParentsOf(results, k), m, results[k]);
    assert |multiset(csv)| == |csv| && |multiset(SortRows(csv))| == |SortRows(csv)|;
    forall r | r in csv ensures r in SortRows(csv) { assert r in multiset(csv); }
  }

  // ----- the result is a function of the bag of rows -----

  function Codes(rows: seq<CanonicalRow>): (codes: seq<string>)
    ensures |codes| == |rows| && forall i | 0 <= i < |rows| :: codes[i] == rows[i].code
  {
    seq(|rows|, i requires 0 <= i < |rows| => rows[i].code)
  }

  lemma CodesCover(a: seq<CanonicalRow>, b: seq<CanonicalRow>, code: string)
    requires forall c | c in a :: c in b
    ensures code in Codes(a) ==> code in Codes(b)
  {
    if code in Codes(a) {
      var i :| 0 <= i < |a| && a[i].code == code;
      assert a[i] in b;
      var j :| 0 <= j < |b| && b[j] == a[i];
      assert Codes(b)[j] == code;
    }
  }

  lemma AscendingUnique(a: seq<CanonicalRow>, b: seq<CanonicalRow>)
    requires Ascending(a) && Ascending(b) && forall c :: c in a <==> c in b
    ensures a == b
  {
    forall code ensures code in Codes(a) <==> code in Codes(b) {
      CodesCover(a, b, code);
      CodesCover(b, a, code);
    }
    ListingUnique(Codes(a), Codes(b));
    forall i | 0 <= i < |a| ensures a[i] == b[i] {
      assert Codes(a)[i] == Codes(b)[i] && a[i] in b && b[i] in b;
    }
  }

  lemma LevelUnique(rows: seq<SourceRow>, level: nat, parents: Index, m: Manifest, a: LevelResult, b: LevelResult)
    requires Shaped(rows, level) && AuditsLevel(rows, level, parents, m, a) && AuditsLevel(rows, level, parents, m, b)
    ensures a == b
  {
    AscendingUnique(a.rows, b.rows);
  }

  predicate SameSource(a: Source, b: Source) { if a.Rows? && b.Rows? then multiset(a.csv) == multiset(b.csv) else a == b }

  /** Rows, counters and digests do not depend on the order in which the files list their rows. */
  lemma OrderIsNotObservable(a: seq<Source>, b: seq<Source>, m: Manifest, ra: seq<LevelResult>, rb: seq<LevelResult>)
    requires Readable(a) && Readable(b) && (forall k | 0 <= k < LEVELS :: SameSource(a[k], b[k]))
    requires AuditsSource(a, m, ra) && AuditsSource(b, m, rb) && |ra| == |rb|
    ensures ra == rb
  {
    SameBelow(a, b, m, ra, rb, |ra|);
  }

  lemma {:induction false} SameBelow(a: seq<Source>, b: seq<Source>, m: Manifest, ra: seq<LevelResult>, rb: seq<LevelResult>, n: nat)
    requires Readable(a) && Readable(b) && (forall k | 0 <= k < LEVELS :: SameSource(a[k], b[k]))
    requires AuditsSource(a, m, ra) && AuditsSource(b, m, rb) && n <= |ra| == |rb|
    ensures forall i | 0 <= i < n :: ra[i] == rb[i]
  {
    if n > 0 {
      SameBelow(a, b, m, ra, rb, n - 1);
      SameAt(a, b, m, ra, rb, n - 1);
    }
  }

  lemma AuditedHere(sources: seq<Source>, m: Manifest, results: seq<LevelResult>, k: nat)
    requires Readable(sources) && AuditsSource(sources, m, results) && k < |results|
    ensures sources[k].Broken? ==> results[k] == BROKEN_LEVEL
    ensures sources[k].Rows? ==> Shaped(SortRows(sources[k].csv), k + 1)
    ensures sources[k].Rows? ==> AuditsLevel(SortRows(sources[k].csv), k + 1, ParentsOf(results, k), m, results[k])
  {
    assert AuditedAt(sources, m, results, k);
    if sources[k].Rows? { SortKeepsShape(sources[k].csv, k + 1); }
  }

  lemma SameAt(a: seq<Source>, b: seq<Source>, m: Manifest, ra: seq<LevelResult>, rb: seq<LevelResult>, k: nat)
    requires Readable(a) && Readable(b) && AuditsSource(a, m, ra) && AuditsSource(b, m, rb) && k < |ra| == |rb|
    requires SameSource(a[k], b[k]) && ParentsOf(ra, k) == ParentsOf(rb, k)
    ensures ra[k] == rb[k]
  {
    AuditedHere(a, m, ra, k);
    AuditedHere(b, m, rb, k);
    if a[k].Rows? {
      SortIgnoresOrder(a[k].csv, b[k].csv);
      LevelUnique(SortRows(a[k].csv), k + 1, ParentsOf(ra, k), m, ra[k], rb[k]);
    }
  }

  // ----- the emitted rows form a forest -----

  /** Canonical rows of the five levels: codes ascend and have their level's length, and every parent is a row one level up. */
  predicate Forest(levels: seq<seq<CanonicalRow>>) {
    |levels| <= LEVELS && forall k | 0 <= k < |levels| :: LayerAt(levels, k)
  }

  function Above(levels: seq<seq<CanonicalRow>>, k: nat): seq<CanonicalRow>
    requires k <= |levels|
  {
    if k == 0 then [] else levels[k - 1]
  }

  predicate LayerAt(levels: seq<seq<CanonicalRow>>, k: nat)
    requires k < |levels| <= LEVELS
  {
    Layer(levels[k], k + 1, Above(levels, k))
  }

  predicate Layer(rows: seq<CanonicalRow>, level: nat, above: seq<CanonicalRow>)
    requires 1 <= level <= LEVELS
  {
    Ascending(rows) && forall c | c in rows :: Node(c, level, above)
  }

  predicate Node(c: CanonicalRow, level: nat, above: seq<CanonicalRow>)
    requires 1 <= level <= LEVELS
  {
    && c.level == level && Digits(c.code, CODE_LENGTHS[level - 1]) && c.parentCode == Last(c.ancestors)
    && if level == 1 then c.ancestors == [] else exists p :: p in above && c.ancestors == p.ancestors + [p.code]
  }

  /** The codes met on the way from the root to c, found by parent codes alone. */
  function RootPath(levels: seq<seq<CanonicalRow>>, c: CanonicalRow, k: nat): Option<seq<string>>
    requires k < |levels|
    decreases k
  {
    if c.parentCode.None? then Some([])
    else if k == 0 || c.parentCode.value !in IndexOf(levels[k - 1]) then None
    else
      var parent := IndexOf(levels[k - 1])[c.parentCode.value];
      var path := RootPath(levels, parent, k - 1);
      if path.None? then None else Some(path.value + [parent.code])
  }

  lemma {:induction false} IndexLookup(rows: seq<CanonicalRow>, code: string)
    ensures code in IndexOf(rows) ==> IndexOf(rows)[code] in rows && IndexOf(rows)[code].code == code
    ensures forall c | c in rows :: c.code in IndexOf(rows)
  {
    if rows != [] {
      var n := |rows| - 1;
      IndexLookup(rows[..n], code);
      assert rows == rows[..n] + [rows[n]];
    }
  }

  lemma IndexFinds(rows: seq<CanonicalRow>, c: CanonicalRow)
    requires Ascending(rows) && c in rows
    ensures c.code in IndexOf(rows) && IndexOf(rows)[c.code] == c
  {
    IndexLookup(rows, c.code);
  }

  lemma IsNode(levels: seq<seq<CanonicalRow>>, c: CanonicalRow, k: nat)
    requires Forest(levels) && k < |levels| && c in levels[k]
    ensures Ascending(levels[k]) && Node(c, k + 1, Above(levels, k))
  {
    assert LayerAt(levels, k);
  }

  /** The stored ancestor codes are the true root path. */
  lemma {:induction false} AncestorsAreRootPaths(levels: seq<seq<CanonicalRow>>, c: CanonicalRow, k: nat)
    requires Forest(levels) && k < |levels| && c in levels[k]
    ensures RootPath(levels, c, k) == Some(c.ancestors) && |c.ancestors| == k
    decreases k
  {
    var p := ParentOf(levels, c, k);
    if k > 0 {
      AncestorsAreRootPaths(levels, p, k - 1);
    }
  }

  lemma ParentOf(levels: seq<seq<CanonicalRow>>, c: CanonicalRow, k: nat) returns (p: CanonicalRow)
    requires Forest(levels) && k < |levels| && c in levels[k]
    ensures k == 0 ==> c.parentCode == None && c.ancestors == []
    ensures k > 0 ==> p in levels[k - 1] && c.parentCode == Some(p.code) && c.ancestors == p.ancestors + [p.code]
    ensures k > 0 ==> p.code in IndexOf(levels[k - 1]) && IndexOf(levels[k - 1])[p.code] == p
  {
    IsNode(levels, c, k);
    p := c;
    if k > 0 {
      p :| p in levels[k - 1] && c.ancestors == p.ancestors + [p.code];
      assert LayerAt(levels, k - 1);
      IndexFinds(levels[k - 1], p);
    }
  }

  /** No code names two rows, on one level or on different ones. */
  lemma CodesAreGlobal(levels: seq<seq<CanonicalRow>>, i: nat, j: nat, c: CanonicalRow, d: CanonicalRow)
    requires Forest(levels) && i < |levels| && j < |levels| && c in levels[i] && d in levels[j] && c.code == d.code
    ensures i == j && c == d
  {
    IsNode(levels, c, i);
    IsNode(levels, d, j);
  }

  function Levels(results: seq<LevelResult>): (levels: seq<seq<CanonicalRow>>)
    ensures |levels| == |results| && forall k | 0 <= k < |results| :: levels[k] == results[k].rows
  {
    seq(|results|, k requires 0 <= k < |results| => results[k].rows)
  }

  /** What an audit emits is a forest, whether or not the report passes. */
  lemma EmittedRowsFormAForest(sources: seq<Source>, m: Manifest, results: seq<LevelResult>)
    requires Readable(sources) && AuditsSource(sources, m, results)
    ensures Forest(Levels(results))
  {
    var levels := Levels(results);
    forall k | 0 <= k < |levels| ensures LayerAt(levels, k) {
      assert AuditedAt(sources, m, results, k);
      if sources[k].Rows? {
        var csv := sources[k].csv;
        SortKeepsShape(csv, k + 1);
        forall c | c in levels[k] ensures Node(c, k + 1, Above(levels, k)) {
          var r :| r in Accepted(SortRows(csv), k + 1, ParentsOf(results, k)) && c == Canonical(m, r, k + 1);
          AcceptedIsNode(r, k + 1, m, Above(levels, k));
        }
      }
    }
  }

  lemma AcceptedIsNode(r: SourceRow, level: nat, m: Manifest, above: seq<CanonicalRow>)
    requires 1 <= level <= LEVELS && |r.ancestors| == level - 1 && (level == 1 ==> above == [])
    requires RowOk(r, level, IndexOf(above))
    ensures Node(Canonical(m, r, level), level, above)
  {
    if level > 1 {
      var code := r.ancestors[level - 2];
      IndexLookup(above, code);
      var p := IndexOf(above)[code];
      assert p in above && r.ancestors == p.ancestors + [p.code];
    }
  }
}
