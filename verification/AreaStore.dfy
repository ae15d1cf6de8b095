/** One dataset of the area store, as an import session changes it: batches, the database audit, the status. */
module AreaStore {
  import opened Basics
  import opened RowOrder
  import opened CodeOrder
  import opened SourceAudit

  datatype Status = Importing | Ready | Failed
  datatype Error = Conflict | InvalidArgument | Lost
  datatype Result<+T> = Ok(value: T) | Err(error: Error)

  /** The source columns of one stored region; the row it hangs under is named by its code. */
  datatype Region = Region(name: string, level: nat, kind: NodeKind, parent: Option<string>)
  type Regions = map<string, Region>

  datatype Dataset = Dataset(identity: string, status: Status, regions: Regions)

  /** What one canonical line of the digest spells out; a digest is as good as the lines it was taken from. */
  datatype Line = Line(level: nat, code: string, name: string, parentCode: Option<string>, kind: NodeKind)

  datatype DatasetAudit = DatasetAudit(passed: bool, digests: seq<seq<Line>>)
  datatype Report = Report(passed: bool, valid: seq<nat>, sourceDigests: seq<seq<Line>>)

  const MAX_BATCH := 5000

  function AsRegion(row: CanonicalRow): Region { Region(row.name, row.level, row.kind, row.parentCode) }

  // ----- appending a batch -----

  /** The i-th ancestor is stored on its level, under the one before it. */
  predicate AncestorStored(regions: Regions, ancestors: seq<string>, i: nat)
    requires i < |ancestors|
  {
    && ancestors[i] in regions && regions[ancestors[i]].level == i + 1
    && regions[ancestors[i]].parent == if i == 0 then None else Some(ancestors[i - 1])
  }

  predicate RowFits(regions: Regions, row: CanonicalRow, level: nat) {
    && row.level == level && |row.ancestors| == row.level - 1 && row.parentCode == Last(row.ancestors)
    && (forall i | 0 <= i < |row.ancestors| :: AncestorStored(regions, row.ancestors, i))
    && (row.code in regions ==> regions[row.code] == AsRegion(row))
  }

  predicate CodesDistinct(rows: seq<CanonicalRow>) { forall i, j | 0 <= i < j < |rows| :: rows[i].code != rows[j].code }

  predicate CodeBefore(rows: seq<CanonicalRow>, i: nat, c: string)
    requires i <= |rows|
  {
    exists j :: 0 <= j < i && rows[j].code == c
  }

  lemma DistinctNext(rows: seq<CanonicalRow>, i: nat)
    requires i < |rows| && CodesDistinct(rows[..i]) && !CodeBefore(rows, i, rows[i].code)
    ensures CodesDistinct(rows[..i + 1]) && forall c :: CodeBefore(rows, i + 1, c) <==> CodeBefore(rows, i, c) || c == rows[i].code
  {
    forall c ensures CodeBefore(rows, i + 1, c) <==> CodeBefore(rows, i, c) || c == rows[i].code {
      if CodeBefore(rows, i, c) { var j :| 0 <= j < i && rows[j].code == c; }
    }
  }

  predicate BatchFits(regions: Regions, rows: seq<CanonicalRow>, level: nat, committed: nat, batchSize: nat) {
    && 0 < |rows| <= batchSize && 1 <= level <= LEVELS && committed >= |rows|
    && CodesDistinct(rows) && forall j | 0 <= j < |rows| :: RowFits(regions, rows[j], level)
  }

  function Inserted(regions: Regions, rows: seq<CanonicalRow>): Regions {
    if rows == [] then regions
    else Inserted(regions, rows[..|rows| - 1])[rows[|rows| - 1].code := AsRegion(rows[|rows| - 1])]
  }

  lemma {:induction false} InsertedAt(regions: Regions, rows: seq<CanonicalRow>, code: string)
    requires CodesDistinct(rows)
    ensures code in Inserted(regions, rows) <==> code in regions || exists r :: r in rows && r.code == code
    ensures forall r | r in rows :: r.code in Inserted(regions, rows) && Inserted(regions, rows)[r.code] == AsRegion(r)
    ensures code in regions && (forall r | r in rows :: r.code != code) ==> Inserted(regions, rows)[code] == regions[code]
  {
    if rows != [] {
      var n := |rows| - 1;
      InsertedAt(regions, rows[..n], code);
      assert rows == rows[..n] + [rows[n]];
      assert forall r | r in rows[..n] :: r.code != rows[n].code;
    }
  }

  // ----- reading a level in code order -----

  /** SELECT … WHERE level = $2 ORDER BY code. */
  function StoredLines(regions: Regions, level: nat): seq<Line> {
    LinesFor(regions, InOrder(OnLevel(regions, level)))
  }

  function OnLevel(regions: Regions, level: nat): set<string> { set c | c in regions && regions[c].level == level }

  predicate Known(regions: Regions, codes: seq<string>) { forall c | c in codes :: c in regions }

  function LinesFor(regions: Regions, codes: seq<string>): (lines: seq<Line>)
    requires Known(regions, codes)
    ensures |lines| == |codes| && forall i | 0 <= i < |codes| :: lines[i] == LineOf(codes[i], regions[codes[i]])
  {
    if codes == [] then [] else [LineOf(codes[0], regions[codes[0]])] + LinesFor(regions, codes[1..])
  }

  lemma LinesMatchRegions(regions: Regions, level: nat, l: Line)
    ensures l in StoredLines(regions, level) <==> l.code in regions && regions[l.code].level == level && l == LineOf(l.code, regions[l.code])
  {
    var codes := InOrder(OnLevel(regions, level));
    var lines := StoredLines(regions, level);
    if l in lines {
      var i :| 0 <= i < |lines| && lines[i] == l;
      assert codes[i] in codes;
    }
    if l.code in regions && regions[l.code].level == level && l == LineOf(l.code, regions[l.code]) {
      assert l.code in codes;
      var i :| 0 <= i < |codes| && codes[i] == l.code;
      assert lines[i] == l;
    }
  }

  lemma {:induction false} LinesConcat(regions: Regions, a: seq<string>, b: seq<string>)
    requires Known(regions, a) && Known(regions, b)
    ensures Known(regions, a + b) && LinesFor(regions, a + b) == LinesFor(regions, a) + LinesFor(regions, b)
  {
    if a == [] {
      assert a + b == b;
    } else {
      assert (a + b)[1..] == a[1..] + b;
      LinesConcat(regions, a[1..], b);
    }
  }

  function LineOf(code: string, r: Region): Line { Line(r.level, code, r.name, r.parent, r.kind) }

  // ----- the session -----

  /** Parents as the audit sees them: a root on level 1, a row one level up elsewhere. */
  predicate Hangs(regions: Regions, line: Line) {
    if line.level == 1 then line.parentCode.None?
    else line.parentCode.Some? && line.parentCode.value in regions && regions[line.parentCode.value].level == line.level - 1
  }

  predicate LevelHangs(regions: Regions, level: nat) { AllHang(regions, StoredLines(regions, level)) }

  /** What the audit says of one level: do its parents hang right, and its lines in code order. */
  datatype LevelAudit = LevelAudit(hangs: bool, lines: seq<Line>)

  function StoredLevel(regions: Regions, level: nat): LevelAudit { LevelAudit(LevelHangs(regions, level), StoredLines(regions, level)) }

  function Summary(levels: seq<LevelAudit>): (audit: DatasetAudit)
    ensures |audit.digests| == |levels|
  {
    if levels == [] then DatasetAudit(true, []) else
      var above := Summary(levels[..|levels| - 1]);
      DatasetAudit(above.passed && levels[|levels| - 1].hangs, above.digests + [levels[|levels| - 1].lines])
  }

  /** One value a level, from level 1 up. */
  function PerLevel<T>(value: nat -> T, n: nat): (values: seq<T>)
    ensures |values| == n && forall k | 0 <= k < n :: values[k] == value(k + 1)
  {
    if n == 0 then [] else PerLevel(value, n - 1) + [value(n)]
  }

  function LevelAudits(regions: Regions): seq<LevelAudit> { PerLevel((level: nat) => StoredLevel(regions, level), LEVELS) }

  lemma LevelAuditsAt(regions: Regions, k: nat)
    requires k < LEVELS
    ensures LevelAudits(regions)[k] == StoredLevel(regions, k + 1)
  {
  }

  function AuditOf(regions: Regions): DatasetAudit { Summary(LevelAudits(regions)) }

  lemma SummaryGrows(levels: seq<LevelAudit>, k: nat)
    requires k < |levels|
    ensures var above := Summary(levels[..k]);
            Summary(levels[..k + 1]) == DatasetAudit(above.passed && levels[k].hangs, above.digests + [levels[k].lines])
  {
    assert levels[..k + 1][..k] == levels[..k];
  }

  lemma {:induction false} SummaryCovers(levels: seq<LevelAudit>)
    ensures forall k | 0 <= k < |levels| :: Summary(levels).digests[k] == levels[k].lines
    ensures Summary(levels).passed <==> forall k | 0 <= k < |levels| :: levels[k].hangs
  {
    if levels != [] { SummaryCovers(levels[..|levels| - 1]); }
  }

  function Counts(digests: seq<seq<Line>>): (counts: seq<nat>)
    ensures |counts| == |digests| && forall k | 0 <= k < |digests| :: counts[k] == |digests[k]|
  {
    seq(|digests|, k requires 0 <= k < |digests| => |digests[k]|)
  }

  predicate AllHang(regions: Regions, lines: seq<Line>) { forall l | l in lines :: Hangs(regions, l) }

  class ImportSession {
    var dataset: Option<Dataset>          // the stored row and its regions, which outlive the session
    var lastAudit: Option<DatasetAudit>
    var cut: Option<nat>                  // messages until the connection breaks; None if it never does

    /** One message over the connection; a broken connection stays broken. */
    method Exchange() returns (ok: bool)
      modifies this`cut
      ensures !ok ==> cut == Some(0)
      ensures cut.Some? == old(cut).Some?
      ensures old(cut) == Some(0) ==> !ok
    {
      ok := cut != Some(0);
      if cut.Some? && cut.value > 0 { cut := Some(cut.value - 1); }
    }

    method EnsureDataset(identity: string) returns (r: Result<Status>)
      modifies this`dataset, this`cut
      ensures cut.Some? == old(cut).Some?
      ensures r.Err? && r.error == Lost ==> cut == Some(0) && (dataset == old(dataset) || Ensured(old(dataset), identity) == Ok(dataset))
      ensures r.Err? && r.error != Lost ==> r == Err(Conflict) && dataset == old(dataset) && Ensured(dataset, identity).Err?
      ensures r.Ok? ==> Ensured(old(dataset), identity) == Ok(dataset) && r.value == dataset.value.status
      ensures old(cut) == None ==> r != Err(Lost)
    {
      var sent := Exchange();
      if !sent { return Err(Lost); }
      if dataset.Some? {
        if dataset.value.identity != identity { return Err(Conflict); }
        if dataset.value.status == Failed { dataset := Some(dataset.value.(status := Importing)); }
      } else {
        dataset := Some(Dataset(identity, Importing, map[]));
      }
      var answered := Exchange();
      if !answered { return Err(Lost); }
      r := Ok(dataset.value.status);
    }

    /** All rows of a batch, or none of them. */
    method AppendBatch(rows: seq<CanonicalRow>, level: nat, committed: nat, batchSize: nat) returns (r: Option<Error>)
      requires dataset.Some?
      modifies this
      ensures cut.Some? == old(cut).Some?
      ensures dataset == old(dataset) || (Appendable(old(dataset.value), rows, level, committed, batchSize)
                                          && dataset == Some(Appended(old(dataset.value), rows)) && lastAudit == None)
      ensures r == None ==> Appendable(old(dataset.value), rows, level, committed, batchSize) && dataset == Some(Appended(old(dataset.value), rows)) && lastAudit == None
      ensures r == Some(Lost) ==> cut == Some(0)
      ensures r.Some? && r != Some(Lost) ==> dataset == old(dataset) && !Appendable(old(dataset.value), rows, level, committed, batchSize)
      ensures old(cut) == None ==> r != Some(Lost)
    {
      if dataset.value.status != Importing { return Some(Conflict); }
      if !(1 <= batchSize <= MAX_BATCH) { return Some(InvalidArgument); }
      if |rows| == 0 || |rows| > batchSize || !(1 <= level <= LEVELS) || committed < |rows| { return Some(Conflict); }
      lastAudit := None;
      var sent := Exchange();
      if !sent { return Some(Lost); }
      var regions := dataset.value.regions;
      var ok, inserted := CheckRows(regions, rows, level);
      if !ok { return Some(Conflict); }
      dataset := Some(dataset.value.(regions := inserted));
      var answered := Exchange();
      if !answered { return Some(Lost); }
      return None;
    }

    static method CheckRows(regions: Regions, rows: seq<CanonicalRow>, level: nat) returns (ok: bool, inserted: Regions)
      ensures ok <==> CodesDistinct(rows) && forall j | 0 <= j < |rows| :: RowFits(regions, rows[j], level)
      ensures ok ==> inserted == Inserted(regions, rows)
    {
      var incoming: set<string> := {};
      inserted := regions;
      for i := 0 to |rows|
        invariant CodesDistinct(rows[..i]) && forall j | 0 <= j < i :: RowFits(regions, rows[j], level)
        invariant forall c :: c in incoming <==> CodeBefore(rows, i, c)
        invariant inserted == Inserted(regions, rows[..i])
      {
        var fits := CheckRow(regions, rows[i], level);
        if rows[i].code in incoming || !fits { return false, regions; }
        InsertedNext(regions, rows, i);
        DistinctNext(rows, i);
        incoming := incoming + {rows[i].code};
        inserted := inserted[rows[i].code := AsRegion(rows[i])];
      }
      assert rows[..|rows|] == rows;
      ok := true;
    }

    static method CheckRow(regions: Regions, row: CanonicalRow, level: nat) returns (ok: bool)
      ensures ok <==> RowFits(regions, row, level)
    {
      if row.level != level || |row.ancestors| != row.level - 1 || row.parentCode != Last(row.ancestors) { return false; }
      ok := CheckAncestors(regions, row.ancestors);
      ok := ok && (row.code in regions ==> regions[row.code] == AsRegion(row));
    }

    static method CheckAncestors(regions: Regions, ancestors: seq<string>) returns (ok: bool)
      ensures ok <==> forall i | 0 <= i < |ancestors| :: AncestorStored(regions, ancestors, i)
    {
      var parent: Option<string> := None;
      for i := 0 to |ancestors|
        invariant forall j | 0 <= j < i :: AncestorStored(regions, ancestors, j)
        invariant parent == if i == 0 then None else Some(ancestors[i - 1])
      {
        var code := ancestors[i];
        if code !in regions || regions[code].level != i + 1 || regions[code].parent != parent {
          assert !AncestorStored(regions, ancestors, i);
          return false;
        }
        parent := Some(code);
      }
      ok := true;
    }

    /** Reads every level in code order, page by page. */
    method AuditDataset() returns (r: Result<DatasetAudit>)
      requires dataset.Some? && "" !in dataset.value.regions
      modifies this`lastAudit, this`cut
      ensures cut.Some? == old(cut).Some?
      ensures r.Ok? ==> r.value == AuditOf(dataset.value.regions) && lastAudit == Some(r.value)
      ensures r.Err? ==> r.error == Lost && cut == Some(0) && lastAudit == old(lastAudit)
      ensures old(cut) == None ==> r.Ok?
    {
      var sent := Exchange();
      if !sent { return Err(Lost); }
      var audit := AuditLevels(dataset.value.regions);
      lastAudit := Some(audit);
      r := Ok(audit);
    }

    static method AuditLevels(regions: Regions) returns (audit: DatasetAudit)
      requires "" !in regions
      ensures audit == AuditOf(regions)
    {
      audit := DatasetAudit(true, []);
      ghost var levels := LevelAudits(regions);
      for k := 0 to LEVELS
        invariant audit == Summary(levels[..k])
      {
        var level := ScanLevel(regions, k + 1);
        LevelAuditsAt(regions, k);
        SummaryGrows(levels, k);
        audit := DatasetAudit(audit.passed && level.hangs, audit.digests + [level.lines]);
      }
      assert levels[..LEVELS] == levels;
    }

    static method ScanLevel(regions: Regions, level: nat) returns (audit: LevelAudit)
      requires "" !in regions
      ensures audit == StoredLevel(regions, level)
    {
      ScanStarts(InOrder(OnLevel(regions, level)));
      var hangs, lines := ScanCodes(regions, InOrder(OnLevel(regions, level)));
      audit := LevelAudit(hangs, lines);
    }

    static method ScanCodes(regions: Regions, stored: seq<string>) returns (hangs: bool, lines: seq<Line>)
      requires AscendingCodes(stored) && Known(regions, stored) && Scanned(stored, [], "")
      ensures lines == LinesFor(regions, stored) && (hangs <==> AllHang(regions, lines))
    {
      var after := "";
      ghost var read: seq<string> := [];
      hangs, lines := true, [];
      var more := true;
      while more
        invariant Known(regions, read) && lines == LinesFor(regions, read) && (hangs <==> AllHang(regions, lines))
        invariant if more then Scanned(stored, read, after) else read == stored
        decreases more, |stored| - |read|
      {
        var page;
        page, lines, hangs := ReadPage(regions, stored, read, after, lines, hangs);
        ScanNext(stored, read, after);
        read := read + page;
        more := |page| >= PAGE;
        if more { after := page[|page| - 1]; }
      }
    }

    static method ReadPage(regions: Regions, stored: seq<string>, ghost read: seq<string>, after: string, lines: seq<Line>, hangs: bool)
      returns (page: seq<string>, lines': seq<Line>, hangs': bool)
      requires Known(regions, stored) && Scanned(stored, read, after) && Known(regions, read)
      requires lines == LinesFor(regions, read) && (hangs <==> AllHang(regions, lines))
      ensures page == PageAfter(stored, after) && Known(regions, read + page)
      ensures lines' == LinesFor(regions, read + page) && (hangs' <==> AllHang(regions, lines'))
    {
      page := PageAfter(stored, after);
      LinesConcat(regions, read, page);
      var rows := LinesFor(regions, page);
      var pageHangs := ScanPage(regions, rows);
      lines', hangs' := lines + rows, hangs && pageHangs;
    }

    static method ScanPage(regions: Regions, page: seq<Line>) returns (hangs: bool)
      ensures hangs <==> AllHang(regions, page)
    {
      hangs := true;
      for i := 0 to |page|
        invariant hangs <==> forall k | 0 <= k < i :: Hangs(regions, page[k])
      {
        if !Hangs(regions, page[i]) { hangs := false; }
      }
    }

    method MarkFailed() returns (ok: bool)
      requires dataset.Some?
      modifies this`dataset, this`cut
      ensures cut.Some? == old(cut).Some?
      ensures dataset == old(dataset) || (old(dataset.value.status) != Ready && dataset == Some(old(dataset.value).(status := Failed)))
      ensures ok && old(dataset.value.status) != Ready ==> dataset == Some(old(dataset.value).(status := Failed))
      ensures old(cut) == None ==> ok
      ensures old(cut) == Some(0) ==> cut == Some(0) && dataset == old(dataset)
    {
      if dataset.value.status == Ready { return true; }
      ok := Exchange();
      if ok {
        dataset := Some(dataset.value.(status := Failed));
        ok := Exchange();
      }
    }

    /** The digest gate: only a dataset whose own rows digest to the source's may become ready. */
    method MarkReady(report: Report, databaseDigests: seq<seq<Line>>) returns (r: Option<Error>)
      requires dataset.Some?
      requires lastAudit.Some? ==> lastAudit.value == AuditOf(dataset.value.regions)
      modifies this`dataset, this`cut
      ensures cut.Some? == old(cut).Some?
      ensures dataset == old(dataset) || (old(dataset.value.status) == Importing && dataset == Some(old(dataset.value).(status := Ready)))
      ensures dataset != old(dataset) || r == None ==> report.passed && AuditOf(dataset.value.regions) == DatasetAudit(true, report.sourceDigests)
      ensures r == None && old(dataset.value.status) == Importing ==> dataset.value.status == Ready
      ensures r == Some(Lost) ==> cut == Some(0)
      ensures r.Some? && r != Some(Lost) ==> dataset == old(dataset) && !Approved(report, lastAudit, databaseDigests)
      ensures old(cut) == None ==> r != Some(Lost)
    {
      if !report.passed || lastAudit.None? || !lastAudit.value.passed
         || report.valid != Counts(lastAudit.value.digests) || lastAudit.value.digests != report.sourceDigests || lastAudit.value.digests != databaseDigests {
        return Some(Conflict);
      }
      if dataset.value.status == Ready { return None; }
      var sent := Exchange();
      if !sent { return Some(Lost); }
      if dataset.value.status == Importing { dataset := Some(dataset.value.(status := Ready)); }
      var answered := Exchange();
      if !answered { return Some(Lost); }
      r := None;
    }
  }

  predicate Approved(report: Report, lastAudit: Option<DatasetAudit>, databaseDigests: seq<seq<Line>>) {
    && report.passed && lastAudit == Some(DatasetAudit(true, report.sourceDigests))
    && report.valid == Counts(report.sourceDigests) && databaseDigests == report.sourceDigests
  }

  function Ensured(dataset: Option<Dataset>, identity: string): Result<Option<Dataset>> {
    if dataset.None? then Ok(Some(Dataset(identity, Importing, map[])))
    else if dataset.value.identity != identity then Err(Conflict)
    else Ok(Some(dataset.value.(status := if dataset.value.status == Failed then Importing else dataset.value.status)))
  }

  predicate Appendable(d: Dataset, rows: seq<CanonicalRow>, level: nat, committed: nat, batchSize: nat) {
    d.status == Importing && 1 <= batchSize <= MAX_BATCH && BatchFits(d.regions, rows, level, committed, batchSize)
  }

  function Appended(d: Dataset, rows: seq<CanonicalRow>): Dataset { d.(regions := Inserted(d.regions, rows)) }

  lemma InsertedNext(regions: Regions, rows: seq<CanonicalRow>, i: nat)
    requires i < |rows|
    ensures Inserted(regions, rows[..i + 1]) == Inserted(regions, rows[..i])[rows[i].code := AsRegion(rows[i])]
  {
    assert rows[..i + 1][..i] == rows[..i];
  }
}
